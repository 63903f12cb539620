/** Timers against loss: what an expiry owes the other end in every reachable state, and that one expiry
    gets a stalled block going again. */
module LtpRecovery {
  import opened Basics
  import opened Bits
  import opened Ranges
  import opened LtpSegment
  import opened LtpEngineSpec
  import opened LtpEngineInvariant
  import opened LtpWire
  import opened LtpSystem
  import opened LtpSystemSafety
  import opened LtpRuns
  import opened LtpRepair
  import opened LtpRepeatedLoss

  // ----- what an expiry sends -----

  /** A receiver that has seen the end of a block that is not empty. */
  ghost predicate OwesReport(sys: System, i: nat, key: Key)
    requires Shaped(sys) && i < 2
  {
    && key.engineId != IdOf(sys, i) && key in sys.engines[i].sessions && key in sys.eob
    && key in sys.blocks && |sys.blocks[key].data| > 0
  }

  /** A report timer sends one report on all the session has tracked, up to the end of the block, naming
      the timer's serial number, if and only if the receiver has seen the end of a block that is not
      empty; otherwise it sends nothing. */
  lemma ReportIsResent(sys: System, i: nat, event: TimerEvent)
    requires Inv(sys) && i < 2 && event.timerType == REPORT_TIMER
    ensures Shaped(sys) && sys.engines[i].config.maxSegmentSize > 0
    ensures var key := Key(event.engineId, event.sessionNumber);
            var o := Handle(sys, Expire(i, event));
            && o.events == []
            && if OwesReport(sys, i, key) then
                 var s := sys.engines[i].sessions[key];
                 && |o.sent| == 1 && Reports(o.sent[0], s, event.serialNumber, |sys.blocks[key].data|)
                 && IsReport(o.sent[0], key, s.ranges, |sys.blocks[key].data|)
                 && o.engine.sessions == sys.engines[i].sessions[key := AfterReport(s)]
               else o.sent == [] && o.engine.sessions == sys.engines[i].sessions
  {
    hide Inv, EngineOk, SessionsFit, SentFits, LiveFits, Octet, SessionOk, Covers, LiveIn;
    var key := Key(event.engineId, event.sessionNumber);
    PartsOfInv(sys, i);
    if key in sys.engines[i].sessions {
      var s := sys.engines[i].sessions[key];
      StoredIsActive(sys.engines[i], key);
      StoredFits(sys, i, key);
      ReportOctet(s, event.serialNumber, s.totalDataLength);
    }
  }

  /** A checkpoint timer, in every reachable state: an originator whose counter is below its limit, or
      whose limit is 255, sends the whole block again, closed by a checkpoint with EOB; at the limit it
      sends one cancel with reason 1 and reports the failure; without an originator nothing happens. */
  lemma BlockIsResent(sys: System, i: nat, event: TimerEvent)
    requires Inv(sys) && i < 2 && event.timerType == CHECKPOINT_TIMER
    ensures Shaped(sys) && sys.engines[i].config.maxSegmentSize > 0
    ensures var key := Key(IdOf(sys, i), event.sessionNumber);
            var e := sys.engines[i];
            var o := Handle(sys, Expire(i, event));
            if key !in e.sessions then o == Outcome(e, [], [])
            else if e.sessions[key].retransmissionCount < e.config.maxRetransmissions || e.config.maxRetransmissions == 255 then
              && key in sys.blocks && ClosedByCheckpoint(key, sys.blocks[key], o.sent) && HasEob(o.sent[|o.sent| - 1].segmentType)
              && Pieces(o.sent, key, 0, 3) && Serials(o.sent, Some(e.sessions[key].checkpointSerialCounter + 1))
              && (forall x: nat :: Covers(RangesOf(o.sent), x) <==> x < |sys.blocks[key].data|)
              && o.events == [] && o.engine.sessions.Keys == e.sessions.Keys
            else
              && |o.sent| == 1 && Cancels(e, o.sent[0], key, 1)
              && o.events == [SessionFailed(event.sessionNumber, 1)] && o.engine.sessions == e.sessions - {key}
  {
    hide Inv, EngineOk, SessionsFit, SentFits, LiveFits, Octet, SegmentBlock, CountSentAll, Covers, LiveIn, ClosedByCheckpoint,
      Pieces, Serials, RangesOf, HasEob;
    PartsOfInv(sys, i);
    var key := Key(IdOf(sys, i), event.sessionNumber);
    var e := sys.engines[i];
    if key in e.sessions {
      StoredIsActive(e, key);
      StoredFits(sys, i, key);
      var s := BumpRetransmissions(e.sessions[key]);
      FirstPass(key, sys.blocks[key], s, e.config.maxSegmentSize);
      BlockOctets(s, e.config.maxSegmentSize);
      MadeOctet(CANCEL_BY_SENDER, key.engineId, key.sessionNumber, CancelContent(1));
      WithinLimit(e, key);
      assert e.sessions[key := s] - {key} == e.sessions - {key};
    }
  }

  lemma WithinLimit(e: Engine, key: Key)
    requires EngineOk(e) && key in e.sessions && key.engineId == e.config.localEngineId
    ensures e.sessions[key].retransmissionCount <= e.config.maxRetransmissions < 256
  {
    assert SessionOk(e, key, e.sessions[key]);
  }

  // ----- both ends of a block in a reachable state -----

  /** The engine without the session. */
  function Without(e: Engine, key: Key): Engine { e.(sessions := e.sessions - {key}) }

  /** A stored originator, as the repair theorems see it. */
  lemma StoredOriginates(sys: System, i: nat, key: Key)
    requires Inv(sys) && i < 2 && Shaped(sys) && key.engineId == IdOf(sys, i) && key in sys.engines[i].sessions
    ensures key in sys.blocks
    ensures Originating(Without(sys.engines[i], key), sys.engines[i], key, sys.blocks[key],
                        sys.engines[i].sessions[key].retransmissionCount)
  {
    hide Inv, EngineOk, SessionsFit, SentFits, LiveFits, SessionOk, LiveIn;
    PartsOfInv(sys, i);
    StoredFits(sys, i, key);
    var e := sys.engines[i];
    assert (e.sessions - {key})[key := e.sessions[key]] == e.sessions;
  }

  /** The bytes the receiver of a block has taken in, as a list that is empty only without a session. */
  function TakenIn(sys: System, i: nat, key: Key): seq<Claim>
    requires Shaped(sys) && i < 2
  {
    if key in sys.engines[i].sessions then sys.engines[i].sessions[key].ranges + [Claim(0, 0)] else []
  }

  /** The other end of the block: a receiver that has some part of it, or none and room for it. */
  lemma StoredCollects(sys: System, i: nat, key: Key)
    requires Inv(sys) && i < 2 && Shaped(sys) && key.engineId != IdOf(sys, i) && key in sys.blocks
    requires key in sys.engines[i].sessions || !Full(sys.engines[i])
    ensures Hosts(Without(sys.engines[i], key), key)
    ensures Collecting(Without(sys.engines[i], key), sys.engines[i], key, sys.blocks[key], TakenIn(sys, i, key),
                       key in sys.eob && key in sys.engines[i].sessions)
  {
    hide Inv, SessionsFit, SentFits, LiveFits, SessionOk, LiveIn, Covers;
    PartsOfInv(sys, i);
    var e := sys.engines[i];
    if key in e.sessions {
      StoredFits(sys, i, key);
      assert (e.sessions - {key}).Keys == e.sessions.Keys - {key};
      var s := e.sessions[key];
      forall x: nat ensures Covers(s.ranges + [Claim(0, 0)], x) <==> Covers(s.ranges, x) {
        NothingMore(s.ranges, x);
      }
    } else {
      assert e.sessions - {key} == e.sessions;
      NothingCollected(e, key, sys.blocks[key]);
    }
  }

  lemma NothingMore(ranges: seq<Claim>, x: nat)
    ensures Covers(ranges + [Claim(0, 0)], x) <==> Covers(ranges, x)
  {
    CoversSnoc(ranges, Claim(0, 0), x);
  }

  // ----- one expiry -----

  lemma ReportExpiry(start: Engine, e: Engine, key: Key, b: Block, got: seq<Claim>, event: TimerEvent)
    requires Collecting(start, e, key, b, got, true) && Hosts(start, key) && |b.data| > 0
    requires event.timerType == REPORT_TIMER && key == Key(event.engineId, event.sessionNumber)
    ensures EngineOk(e)
    ensures var o := TimerExpired(e, event);
            && Collecting(start, o.engine, key, b, got, true) && o.events == [] && |o.sent| == 1 && key in o.engine.sessions
            && IsReport(o.sent[0], key, o.engine.sessions[key].ranges, |b.data|)
  {
    hide EngineOk, ReceiverFits, Claims, IsComplete, CoversBlock;
    EngineOfCollecting(start, e, key, b, got, true);
    CollectedRanges(start, e, key, b, got);
    StoredIsActive(e, key);
    TimerKeepsOk(e, event);
    AfterReportFits(b, e.sessions[key], got, true);
    OkParts(e);
  }

  lemma BlockExpiry(start: Engine, a: Engine, key: Key, b: Block, rounds: nat, event: TimerEvent)
    requires Originating(start, a, key, b, rounds) && rounds < a.config.maxRetransmissions
    requires event.timerType == CHECKPOINT_TIMER && key.sessionNumber == event.sessionNumber
    ensures EngineOk(a)
    ensures var o := TimerExpired(a, event);
            && Originating(start, o.engine, key, b, rounds + 1) && o.events == []
            && |o.sent| > 0 && ClosedByCheckpoint(key, b, o.sent) && HasEob(o.sent[|o.sent| - 1].segmentType)
            && CoversBlock(b, RangesOf(o.sent))
  {
    hide EngineOk, SegmentBlock, CountSentAll, RangesOf, Covers, RedPiece;
    OriginatorParts(start, a, key, b, rounds);
    BlockOfOriginator(start, a, key, b, rounds);
    OkParts(a);
    TimerKeepsOk(a, event);
    OriginatorIsRed(start, a, key, b, rounds);
    FirstPass(key, b, BumpRetransmissions(a.sessions[key]), a.config.maxSegmentSize);
  }

  lemma OriginatorIsRed(start: Engine, a: Engine, key: Key, b: Block, rounds: nat)
    requires Originating(start, a, key, b, rounds)
    ensures key in a.sessions && a.sessions[key].isRed
  {
    OriginatorParts(start, a, key, b, rounds);
    assert SessionOk(a, key, a.sessions[key]);
  }

  // ----- the block goes on -----

  /** The whole block once more, and all of it arrives. */
  lemma WholePassEnds(startA: Engine, a: Engine, startB: Engine, e: Engine, key: Key, b: Block, rounds: nat, got: seq<Claim>,
                      sawEob: bool, sent: seq<Segment>)
    requires Originating(startA, a, key, b, rounds) && Collecting(startB, e, key, b, got, sawEob) && Hosts(startB, key)
    requires |sent| > 0 && ClosedByCheckpoint(key, b, sent) && HasEob(sent[|sent| - 1].segmentType)
    requires CoversBlock(b, RangesOf(sent))
    ensures EngineOk(a) && EngineOk(e)
    ensures SettledWithin(startA, a, startB, key, b, 0, Exchange(a, e, sent, 3))
  {
    hide EngineOk, Collecting, Originating, CoversBlock, IsReport, DeliverAll, Exchange, RedPiece, ClosedByCheckpoint, RangesOf, HasEob;
    OriginatorOk(startA, a, key, b, rounds);
    EngineOfCollecting(startB, e, key, b, got, sawEob);
    HostParts(startB, key);
    PassParts(key, b, sent);
    var n := |sent| - 1;
    assert sent[..n] + [sent[n]] == sent;
    OnePass(startB, e, key, b, got, sawEob, sent[..n], sent[n]);
    PieceEnds(key, b, sent[n]);
    MoreCovers(b, got, RangesOf(sent));
    var ob := DeliverAll(e, sent);
    assert ob.sent == [ob.sent[0]];
    OneRound(a, e, sent, 2);
    Finish(startA, a, startB, ob.engine, key, b, rounds, got + RangesOf(sent), ob.sent[0], |b.data|, 1);
  }

  lemma MoreCovers(b: Block, got: seq<Claim>, more: seq<Claim>)
    requires CoversBlock(b, more)
    ensures CoversBlock(b, got + more)
  {
    hide Covers;
    forall x: nat | x < |b.data| ensures Covers(got + more, x) {
      CoversConcat(got, more, x);
    }
  }

  /** The whole block once more, through lossy passes and then a clean one. */
  lemma BlockGoesOn(startA: Engine, a: Engine, startB: Engine, e: Engine, key: Key, b: Block, rounds: nat, got: seq<Claim>,
                    sawEob: bool, sent: seq<Segment>, picks: seq<seq<nat>>)
    requires Originating(startA, a, key, b, rounds) && Collecting(startB, e, key, b, got, sawEob) && Hosts(startB, key)
    requires |sent| > 0 && ClosedByCheckpoint(key, b, sent) && HasEob(sent[|sent| - 1].segmentType)
    requires CoversBlock(b, RangesOf(sent)) && rounds + |picks| <= a.config.maxRetransmissions
    ensures EngineOk(a) && EngineOk(e)
    ensures SettledWithin(startA, a, startB, key, b, |picks|, LossyThenClean(a, e, sent, picks))
  {
    hide EngineOk, Collecting, Originating, CoversBlock, IsReport, DeliverAll, Exchange, TailClaimed, ClosedByCheckpoint, RangesOf,
      HasEob, Arriving, Hosts;
    OriginatorOk(startA, a, key, b, rounds);
    EngineOfCollecting(startB, e, key, b, got, sawEob);
    if |picks| == 0 {
      WholePassEnds(startA, a, startB, e, key, b, rounds, got, sawEob, sent);
    } else {
      FirstLossyPass(startB, e, key, b, got, sawEob, sent, picks[0]);
      AfterPass(startA, a, startB, DeliverAll(e, Arriving(sent, picks[0])), key, b, rounds,
                got + RangesOf(Arriving(sent, picks[0])), |b.data|, picks[1..]);
    }
  }

  // ----- every run -----

  /** A stalled block recovers by its checkpoint timer. In every reachable state with an originator whose
      counter leaves room for it, and a receiver that has any part of the block or room for a session,
      one expiry, up to as many lossy passes as the limit still allows, and then a clean pass let both ends
      finish, the receiver with exactly the block. */
  lemma CheckpointExpiryRecovers(c0: Config, c1: Config, actions: seq<Action>, i: nat, event: TimerEvent, picks: seq<seq<nat>>)
    requires Configured(c0, c1) && i < 2 && event.timerType == CHECKPOINT_TIMER
    requires var sys := After(c0, c1, actions);
             var key := Key(IdOf(sys, i), event.sessionNumber);
             && key in sys.engines[i].sessions
             && sys.engines[i].sessions[key].retransmissionCount + 1 + |picks| <= sys.engines[i].config.maxRetransmissions
             && (key in sys.engines[1 - i].sessions || !Full(sys.engines[1 - i]))
    ensures var sys := After(c0, c1, actions);
            var key := Key(IdOf(sys, i), event.sessionNumber);
            var a, b := sys.engines[i], sys.engines[1 - i];
            && key in sys.blocks && EngineOk(a) && EngineOk(b) && EngineOk(TimerExpired(a, event).engine)
            && var o := TimerExpired(a, event);
               SettledWithin(Without(a, key), o.engine, Without(b, key), key, sys.blocks[key], |picks|,
                             LossyThenClean(o.engine, b, o.sent, picks))
  {
    hide *;
    var sys := After(c0, c1, actions);
    PartsOfInv(sys, i);
    PartsOfInv(sys, 1 - i);
    DifferentIds(sys, i);
    var key := Key(IdOf(sys, i), event.sessionNumber);
    var a, b := sys.engines[i], sys.engines[1 - i];
    var rounds := a.sessions[key].retransmissionCount;
    StoredOriginates(sys, i, key);
    StoredCollects(sys, 1 - i, key);
    BlockExpiry(Without(a, key), a, key, sys.blocks[key], rounds, event);
    TimerKeepsOk(a, event);
    TimerKeepsConfig(a, event);
    var o := TimerExpired(a, event);
    BlockGoesOn(Without(a, key), o.engine, Without(b, key), b, key, sys.blocks[key], rounds + 1, TakenIn(sys, 1 - i, key),
                key in sys.eob && key in b.sessions, o.sent, picks);
  }

  lemma DifferentIds(sys: System, i: nat)
    requires Shaped(sys) && i < 2
    ensures |sys.engines| == 2 && IdOf(sys, i) != IdOf(sys, 1 - i)
  {
  }

  lemma TimerKeepsConfig(e: Engine, event: TimerEvent)
    requires e.config.maxSegmentSize > 0
    ensures TimerExpired(e, event).engine.config == e.config
  {
    hide SegmentBlock, CountSentAll;
  }

  /** What follows when the report of an expiry reaches the originator. */
  ghost function AfterReportExpiry(a: Engine, o: Outcome, picks: seq<seq<nat>>): Talk
    requires EngineOk(a) && EngineOk(o.engine)
  {
    var oa := DeliverAll(a, o.sent);
    var rest := LossyThenClean(oa.engine, o.engine, oa.sent, picks);
    Talk(rest.a, rest.b, rest.inFlight, oa.events + rest.eventsA, o.events + rest.eventsB)
  }

  /** A lost report, or a lost answer to it, is made good by the report timer. In every reachable state in
      which the receiver owes a report and the originator still waits, one expiry, up to as many lossy
      passes as the limit still allows, and then a clean pass let both ends finish, the receiver with
      exactly the block; if it has the whole block already, whatever the limit. */
  lemma ReportExpiryRecovers(c0: Config, c1: Config, actions: seq<Action>, i: nat, event: TimerEvent, picks: seq<seq<nat>>)
    requires Configured(c0, c1) && i < 2 && event.timerType == REPORT_TIMER
    requires var sys := After(c0, c1, actions);
             var key := Key(event.engineId, event.sessionNumber);
             && OwesReport(sys, i, key) && key in sys.engines[1 - i].sessions
             && (|| CoversBlock(sys.blocks[key], TakenIn(sys, i, key))
                 || sys.engines[1 - i].sessions[key].retransmissionCount + 1 + |picks| <= sys.engines[1 - i].config.maxRetransmissions)
    ensures var sys := After(c0, c1, actions);
            var key := Key(event.engineId, event.sessionNumber);
            var a, b := sys.engines[1 - i], sys.engines[i];
            && EngineOk(a) && EngineOk(b) && EngineOk(TimerExpired(b, event).engine)
            && SettledWithin(Without(a, key), a, Without(b, key), key, sys.blocks[key], |picks| + 1,
                             AfterReportExpiry(a, TimerExpired(b, event), picks))
  {
    hide *;
    var sys := After(c0, c1, actions);
    PartsOfInv(sys, i);
    PartsOfInv(sys, 1 - i);
    var key := Key(event.engineId, event.sessionNumber);
    OwedParts(sys, i, key);
    var a, b, block := sys.engines[1 - i], sys.engines[i], sys.blocks[key];
    StoredOriginates(sys, 1 - i, key);
    StoredCollects(sys, i, key);
    ReportExpiry(Without(b, key), b, key, block, TakenIn(sys, i, key), event);
    TimerKeepsOk(b, event);
    var o := TimerExpired(b, event);
    NoTail(block, TakenIn(sys, i, key));
    AfterPass(Without(a, key), a, Without(b, key), o, key, block, a.sessions[key].retransmissionCount, TakenIn(sys, i, key),
              |block.data|, picks);
    SameTalk(a, o, picks);
  }

  lemma OwedParts(sys: System, i: nat, key: Key)
    requires Inv(sys) && Shaped(sys) && i < 2 && OwesReport(sys, i, key)
    ensures |sys.engines| == 2 && key.engineId != IdOf(sys, i) && key.engineId == IdOf(sys, 1 - i)
    ensures key.engineId == sys.engines[1 - i].config.localEngineId
    ensures key in sys.engines[i].sessions && key in sys.eob && key in sys.blocks && |sys.blocks[key].data| > 0
  {
    hide Inv, ReceiverFits, SessionOk;
    StoredFits(sys, i, key);
  }

  lemma SameTalk(a: Engine, o: Outcome, picks: seq<seq<nat>>)
    requires EngineOk(a) && EngineOk(o.engine) && o.events == []
    ensures var oa := DeliverAll(a, o.sent);
            var rest := LossyThenClean(oa.engine, o.engine, oa.sent, picks);
            AfterReportExpiry(a, o, picks) == Talk(rest.a, rest.b, rest.inFlight, oa.events + rest.eventsA, rest.eventsB)
  {
    hide EngineOk, DeliverAll, LossyThenClean;
    var oa := DeliverAll(a, o.sent);
    var rest := LossyThenClean(oa.engine, o.engine, oa.sent, picks);
    assert [] + rest.eventsB == rest.eventsB;
  }

  /** The last acknowledgment was lost: the originator has forgotten the block. One report expiry and the
      acknowledgment of its report then deliver exactly the block and close the session if the receiver
      has the whole block; if not, nothing is delivered and the session stays. */
  lemma LostAckRecoversIff(c0: Config, c1: Config, actions: seq<Action>, i: nat, event: TimerEvent)
    requires Configured(c0, c1) && i < 2 && event.timerType == REPORT_TIMER
    requires var sys := After(c0, c1, actions);
             var key := Key(event.engineId, event.sessionNumber);
             OwesReport(sys, i, key) && key !in sys.engines[1 - i].sessions
    ensures var sys := After(c0, c1, actions);
            var key := Key(event.engineId, event.sessionNumber);
            var a, b := sys.engines[1 - i], sys.engines[i];
            && EngineOk(a) && EngineOk(b) && EngineOk(TimerExpired(b, event).engine)
            && var o := TimerExpired(b, event);
               var oa := DeliverAll(a, o.sent);
               var ob := DeliverAll(o.engine, oa.sent);
               && |o.sent| == 1 && |oa.sent| == 1 && Acknowledges(oa.sent[0], o.sent[0])
               && oa.events == [] && oa.engine.sessions == a.sessions && ob.sent == []
               && (if CoversBlock(sys.blocks[key], TakenIn(sys, i, key)) then
                     && |ob.events| == 1 && ob.events[0].Delivered? && ob.events[0].key == key && ob.events[0].red
                     && ob.events[0].data == sys.blocks[key].data && ob.engine.sessions == b.sessions - {key}
                   else ob.events == [] && key in ob.engine.sessions)
  {
    hide *;
    var sys := After(c0, c1, actions);
    PartsOfInv(sys, i);
    PartsOfInv(sys, 1 - i);
    var key := Key(event.engineId, event.sessionNumber);
    OwedParts(sys, i, key);
    var a, b, block, got := sys.engines[1 - i], sys.engines[i], sys.blocks[key], TakenIn(sys, i, key);
    StoredCollects(sys, i, key);
    ReportExpiry(Without(b, key), b, key, block, got, event);
    TimerKeepsOk(b, event);
    var o := TimerExpired(b, event);
    assert o.sent == [o.sent[0]];
    UnknownReport(a, key, o.sent[0], o.engine.sessions[key].ranges, |block.data|);
    DeliverSingle(a, o.sent[0]);
    var ack := DeliverOne(a, o.sent[0]).sent[0];
    DeliverSingle(o.engine, ack);
    HostParts(Without(b, key), key);
    assert DeliverAll(a, o.sent).sent == [ack];
    if CoversBlock(block, got) {
      AckCloses(Without(b, key), o.engine, key, block, got, ack);
      WithoutSessions(b, key);
    } else {
      AckTooEarly(Without(b, key), o.engine, key, block, got, ack);
      CollectedRanges(Without(b, key), DeliverOne(o.engine, ack).engine, key, block, got);
    }
  }

  lemma WithoutSessions(e: Engine, key: Key)
    ensures Without(e, key).sessions == e.sessions - {key}
  {
  }

  /** A report on a block that its originator has forgotten is acknowledged, and nothing else happens. */
  lemma UnknownReport(a: Engine, key: Key, report: Segment, ranges: seq<Claim>, upper: nat)
    requires EngineOk(a) && key.engineId == a.config.localEngineId && key !in a.sessions && IsReport(report, key, ranges, upper)
    ensures var o := DeliverOne(a, report);
            && |o.sent| == 1 && Acknowledges(o.sent[0], report) && IsAck(o.sent[0], key)
            && o.events == [] && o.engine.sessions == a.sessions
  {
    hide EngineOk, Octet;
    OkParts(a);
    AckOctet(report);
  }
}
