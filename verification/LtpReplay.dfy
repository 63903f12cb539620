/** Exchanges as runs of the system: repair from any reachable state, and a run that delivers a block twice. */
module LtpReplay {
  import opened Basics
  import opened Bits
  import opened Ranges
  import opened LtpSegment
  import opened LtpEngineSpec
  import opened LtpEngineInvariant
  import opened LtpSystem
  import opened LtpSystemSafety
  import opened LtpRuns
  import opened LtpRepair
  import opened LtpRepeatedLoss
  import opened LtpDeliveries

  // ----- repair from any reachable state -----

  /** Whatever an engine stores for its peer has a number the peer has used. */
  lemma StoredNumbersAreUsed(sys: System, i: nat, k: Key)
    requires Inv(sys) && Shaped(sys) && i < 2 && k in sys.engines[1 - i].sessions && k.engineId == IdOf(sys, i)
    ensures k.sessionNumber <= sys.engines[i].sessionCounter
  {
    hide EngineOk, SentFits, EobFits, LiveFits, LogFits, ReceiverFits;
    assert SessionFits(sys, 1 - i, k, sys.engines[1 - i].sessions[k]);
  }

  /** In every reachable state the next session number of either engine is new to its peer. */
  lemma NextNumberIsNew(sys: System, i: nat)
    requires Inv(sys) && Shaped(sys) && i < 2
    ensures Key(IdOf(sys, i), sys.engines[i].sessionCounter + 1) !in sys.engines[1 - i].sessions
  {
    hide Inv;
    var key := Key(IdOf(sys, i), sys.engines[i].sessionCounter + 1);
    if key in sys.engines[1 - i].sessions {
      StoredNumbersAreUsed(sys, i, key);
    }
  }

  /** Repair under repeated loss starts from every state that any run can reach, as long as both ends
      have room for the session. */
  lemma RepairFromAnyRun(c0: Config, c1: Config, actions: seq<Action>, i: nat, data: seq<byte>, picks: seq<seq<nat>>)
    requires Configured(c0, c1) && i < 2
    requires var sys := After(c0, c1, actions);
             !Full(sys.engines[i]) && !Full(sys.engines[1 - i]) && |picks| <= sys.engines[i].config.maxRetransmissions
    ensures var sys := After(c0, c1, actions);
            var a, b := sys.engines[i], sys.engines[1 - i];
            && EngineOk(a) && EngineOk(b)
            && var started := StartSession(a, data, true).0;
               && EngineOk(started.engine)
               && SettledWithin(a, started.engine, b, Key(a.config.localEngineId, a.sessionCounter + 1), Block(data, true), |picks|,
                                LossyThenClean(started.engine, b, started.sent, picks))
  {
    hide *;
    var sys := After(c0, c1, actions);
    PartsOfInv(sys, i);
    PartsOfInv(sys, 1 - i);
    NextNumberIsNew(sys, i);
    DistinctIds(sys, i);
    RepairSurvivesLoss(sys.engines[i], sys.engines[1 - i], data, picks);
  }

  lemma DistinctIds(sys: System, i: nat)
    requires Shaped(sys) && i < 2
    ensures |sys.engines| == 2 && sys.engines[i].config.localEngineId != sys.engines[1 - i].config.localEngineId
    ensures IdOf(sys, i) == sys.engines[i].config.localEngineId
  {
  }

  // ----- deliveries in order are steps of the system -----

  function Handing(i: nat, segs: seq<Segment>): seq<Action> {
    seq(|segs|, j requires 0 <= j < |segs| => Deliver(i, segs[j]))
  }

  /** What a run of deliveries to engine `i` has made of `sys`. */
  ghost predicate Handed(sys: System, i: nat, o: Outcome, after: System, key: Key)
    requires Shaped(sys) && i < 2
  {
    && Inv(after) && Shaped(after)
    && after.engines == sys.engines[i := o.engine]
    && after.sent[1 - i] == sys.sent[1 - i] && (forall seg :: seg in sys.sent[i] || seg in o.sent ==> seg in after.sent[i])
    && DeliveriesOf(after.log, key) == DeliveriesOf(sys.log, key) + EventsFor(o.events, key)
  }

  lemma HandOne(sys: System, i: nat, seg: Segment, key: Key)
    requires Inv(sys) && Shaped(sys) && i < 2 && seg in sys.sent[1 - i]
    ensures EngineOk(sys.engines[i])
    ensures Handed(sys, i, DeliverOne(sys.engines[i], seg), Step(sys, Deliver(i, seg)), key)
  {
    hide Inv, EngineOk, ReceiveSegment, NextLive, NextRounds, NextBlocks, NextArrivals, Logged, Receiving, Receivable, DeliveriesOf,
      EventsFor, TakesData;
    var a := Deliver(i, seg);
    PartsOfInv(sys, i);
    InFlightIsReceivable(sys, i, seg);
    StepKeepsInv(sys, a);
    HandlerKeepsConfig(sys, a);
    var o := Handle(sys, a);
    LoggedDeliveries(IdOf(sys, i), Marked(sys, a), o.events, key);
    DeliveriesConcat(sys.log, Logged(IdOf(sys, i), Marked(sys, a), o.events), key);
  }

  lemma {:induction false} EventsConcat(a: seq<Event>, c: seq<Event>, key: Key)
    ensures EventsFor(a + c, key) == EventsFor(a, key) + EventsFor(c, key)
    decreases |a|
  {
    if |a| == 0 {
      assert a + c == c;
    } else {
      EventsConcat(a[1..], c, key);
      assert (a + c)[1..] == a[1..] + c;
    }
  }

  lemma {:induction false} RunConcat(sys: System, first: seq<Action>, second: seq<Action>)
    requires Inv(sys)
    ensures Run(sys, first + second) == Run(Run(sys, first), second)
    decreases |first|
  {
    hide Inv, Step;
    if |first| == 0 {
      assert first + second == second;
    } else {
      StepKeepsInv(sys, first[0]);
      assert (first + second)[1..] == first[1..] + second;
      RunConcat(Step(sys, first[0]), first[1..], second);
    }
  }

  lemma RunOfOne(sys: System, a: Action)
    requires Inv(sys)
    ensures Inv(Step(sys, a)) && Run(sys, [a]) == Step(sys, a)
  {
    hide Inv, Step;
    StepKeepsInv(sys, a);
    assert [a][1..] == [];
    assert Run(Step(sys, a), []) == Step(sys, a);
  }

  /** Delivering a list in order is a run of the system. */
  lemma {:induction false} HandAll(sys: System, i: nat, segs: seq<Segment>, key: Key)
    requires Inv(sys) && Shaped(sys) && i < 2 && forall seg :: seg in segs ==> seg in sys.sent[1 - i]
    ensures EngineOk(sys.engines[i])
    ensures Handed(sys, i, DeliverAll(sys.engines[i], segs), Run(sys, Handing(i, segs)), key)
    decreases |segs|
  {
    hide Inv, EngineOk, Step, DeliverOne, DeliveriesOf, EventsFor;
    PartsOfInv(sys, i);
    if |segs| == 0 {
      NoEvents(key);
      assert sys.engines[i := sys.engines[i]] == sys.engines;
    } else {
      var n := |segs| - 1;
      assert segs[n] in segs && forall seg :: seg in segs[..n] ==> seg in segs;
      HandAll(sys, i, segs[..n], key);
      var mid := Run(sys, Handing(i, segs[..n]));
      HandOne(mid, i, segs[n], key);
      assert Handing(i, segs) == Handing(i, segs[..n]) + [Deliver(i, segs[n])];
      RunConcat(sys, Handing(i, segs[..n]), [Deliver(i, segs[n])]);
      RunOfOne(mid, Deliver(i, segs[n]));
      EventsConcat(DeliverAll(sys.engines[i], segs[..n]).events, DeliverOne(mid.engines[i], segs[n]).events, key);
    }
  }

  // ----- a block delivered twice -----

  /** A whole exchange without loss, and then everything the receiver got once more. */
  function Replayed(data: seq<byte>, wire: seq<Segment>, report: Segment, ack: Segment): seq<Action> {
    [Start(0, data, true)] + Handing(1, wire) + Handing(0, [report]) + Handing(1, [ack]) + Handing(1, wire) + Handing(1, [ack])
  }

  /** The wire of a whole block reaches a receiver that has no session for it. */
  lemma ReceiveWire(sys: System, key: Key, b: Block, wire: seq<Segment>) returns (report: Segment)
    requires Inv(sys) && Shaped(sys) && key.engineId == IdOf(sys, 0) && key !in sys.engines[1].sessions && !Full(sys.engines[1])
    requires ClosedByCheckpoint(key, b, wire) && |wire| > 0 && HasEob(wire[|wire| - 1].segmentType)
    requires forall seg :: seg in wire ==> seg in sys.sent[0]
    ensures var after := Run(sys, Handing(1, wire));
            && Shaped(after) && after.engines[0] == sys.engines[0] && after.sent[0] == sys.sent[0]
            && Collecting(sys.engines[1], after.engines[1], key, b, RangesOf(wire), true)
            && key in after.engines[1].sessions && IsReport(report, key, after.engines[1].sessions[key].ranges, |b.data|)
            && report in after.sent[1] && DeliveriesOf(after.log, key) == DeliveriesOf(sys.log, key)
  {
    hide Inv, EngineOk, Collecting, RedPiece, IsReport, DeliverAll, ClosedByCheckpoint, Run, DeliveriesOf, HasEob;
    var e := sys.engines[1];
    PartsOfInv(sys, 1);
    NothingCollected(e, key, b);
    var n := |wire| - 1;
    PassParts(key, b, wire);
    assert wire[..n] + [wire[n]] == wire;
    OnePass(e, e, key, b, [], false, wire[..n], wire[n]);
    PieceEnds(key, b, wire[n]);
    assert [] + RangesOf(wire) == RangesOf(wire);
    HandAll(sys, 1, wire, key);
    NoEvents(key);
    report := DeliverAll(e, wire).sent[0];
  }

  /** An acknowledgment, first or replayed, reaches a receiver that has the whole block. */
  lemma ReceiveAck(sys: System, start: Engine, key: Key, b: Block, got: seq<Claim>, ack: Segment)
    requires Inv(sys) && Shaped(sys) && key.engineId != start.config.localEngineId && ack in sys.sent[0] && IsAck(ack, key)
    requires Collecting(start, sys.engines[1], key, b, got, true) && CoversBlock(b, got)
    ensures var after := Run(sys, Handing(1, [ack]));
            && Shaped(after) && after.engines[0] == sys.engines[0] && after.sent[0] == sys.sent[0]
            && after.engines[1].sessions == start.sessions && after.engines[1].config == start.config
            && DeliveriesOf(after.log, key) == DeliveriesOf(sys.log, key) + 1
  {
    hide Inv, EngineOk, Collecting, DeliverOne, Run, DeliveriesOf, CoversBlock, IsAck;
    var e := sys.engines[1];
    AckCloses(start, e, key, b, got, ack);
    EngineOfCollecting(start, e, key, b, got, true);
    DeliverSingle(e, ack);
    HandAll(sys, 1, [ack], key);
    OneEventFor(DeliverOne(e, ack).events[0], key);
    DeliveryKeepsConfig(sys, ack);
  }

  lemma DeliveryKeepsConfig(sys: System, seg: Segment)
    requires Inv(sys) && Shaped(sys) && seg in sys.sent[0]
    ensures EngineOk(sys.engines[1])
    ensures DeliverOne(sys.engines[1], seg).engine.config == sys.engines[1].config
  {
    hide Inv, EngineOk, ReceiveSegment, Receivable;
    PartsOfInv(sys, 1);
    InFlightIsReceivable(sys, 1, seg);
    HandlerKeepsConfig(sys, Deliver(1, seg));
  }

  /** The report of a whole block reaches its originator, which acknowledges it. */
  lemma AnswerReport(sys: System, start: Engine, key: Key, b: Block, ranges: seq<Claim>, report: Segment) returns (ack: Segment)
    requires Inv(sys) && Shaped(sys) && report in sys.sent[1] && Originating(start, sys.engines[0], key, b, 0)
    requires IsReport(report, key, ranges, |b.data|) && Claims(b, ranges) && CoversBlock(b, ranges)
    ensures var after := Run(sys, Handing(0, [report]));
            && Shaped(after) && after.engines[1] == sys.engines[1] && (forall seg :: seg in sys.sent[0] ==> seg in after.sent[0])
            && ack in after.sent[0] && IsAck(ack, key) && DeliveriesOf(after.log, key) == DeliveriesOf(sys.log, key)
  {
    hide Inv, EngineOk, Originating, DeliverOne, Run, DeliveriesOf, CoversBlock, Claims;
    OriginatorOk(start, sys.engines[0], key, b, 0);
    ReportCompletes(start, sys.engines[0], key, b, 0, report, ranges, |b.data|);
    DeliverSingle(sys.engines[0], report);
    HandAll(sys, 0, [report], key);
    var o := DeliverOne(sys.engines[0], report);
    OneEventFor(o.events[0], key);
    ack := o.sent[0];
  }

  /** Exactly-once delivery fails for every block: when, after a whole exchange, the network repeats
      the segments of the block and the acknowledgment, the receiver delivers the block again. */
  lemma DeliveredTwice(c0: Config, c1: Config, data: seq<byte>) returns (wire: seq<Segment>, report: Segment, ack: Segment)
    requires Configured(c0, c1) && c0.maxConcurrentSessions > 0 && c1.maxConcurrentSessions > 0
    ensures DeliveriesOf(After(c0, c1, Replayed(data, wire, report, ack)).log, Key(c0.localEngineId, 1)) == 2
  {
    hide *;
    var key, b := Key(c0.localEngineId, 1), Block(data, true);
    AfterIsRun(c0, c1, []);
    var s0 := Initial(c0, c1);
    Beginning(c0, c1, s0);
    var s1 := Step(s0, Start(0, data, true));
    wire := FirstStep(s0, key, b);
    report := ReceiveWire(s1, key, b, wire);
    var s2 := Run(s1, Handing(1, wire));
    DistinctIds(s1, 0);
    DistinctIds(s2, 0);
    Whole(s1.engines[1], s2.engines[1], key, b, RangesOf(wire));
    ack := AnswerReport(s2, s0.engines[0], key, b, s2.engines[1].sessions[key].ranges, report);
    var s3 := Run(s2, Handing(0, [report]));
    ReceiveAck(s3, s1.engines[1], key, b, RangesOf(wire), ack);
    var s4 := Run(s3, Handing(1, [ack]));
    IdsStay(s1, Handing(1, wire));
    IdsStay(s2, Handing(0, [report]));
    IdsStay(s3, Handing(1, [ack]));
    DistinctIds(s4, 1);
    RoomAgain(s1, s4);
    var again := ReceiveWire(s4, key, b, wire);
    var s5 := Run(s4, Handing(1, wire));
    ReceiveAck(s5, s4.engines[1], key, b, RangesOf(wire), ack);
    RunsJoin(s0, data, wire, report, ack);
    AfterIsRun(c0, c1, Replayed(data, wire, report, ack));
  }

  lemma Beginning(c0: Config, c1: Config, sys: System)
    requires Configured(c0, c1) && c0.maxConcurrentSessions > 0 && c1.maxConcurrentSessions > 0 && sys == Initial(c0, c1)
    ensures Shaped(sys) && IdOf(sys, 0) == c0.localEngineId && sys.engines[0].sessionCounter == 0
    ensures !Full(sys.engines[0]) && !Full(sys.engines[1]) && forall key :: DeliveriesOf(sys.log, key) == 0
  {
  }

  /** The start of a red block, as a step of the system. */
  lemma FirstStep(sys: System, key: Key, b: Block) returns (wire: seq<Segment>)
    requires Inv(sys) && Shaped(sys) && b.red && !Full(sys.engines[0]) && !Full(sys.engines[1])
    requires key == Key(IdOf(sys, 0), sys.engines[0].sessionCounter + 1)
    ensures var s1 := Step(sys, Start(0, b.data, true));
            && Inv(s1) && Shaped(s1) && IdOf(s1, 0) == IdOf(sys, 0) && IdOf(s1, 1) == IdOf(sys, 1)
            && Originating(sys.engines[0], s1.engines[0], key, b, 0)
            && s1.engines[1] == sys.engines[1] && key !in s1.engines[1].sessions && !Full(s1.engines[1])
            && key.engineId != s1.engines[1].config.localEngineId
            && (forall seg :: seg in wire ==> seg in s1.sent[0]) && DeliveriesOf(s1.log, key) == DeliveriesOf(sys.log, key)
    ensures ClosedByCheckpoint(key, b, wire) && |wire| > 0 && HasEob(wire[|wire| - 1].segmentType) && CoversBlock(b, RangesOf(wire))
  {
    hide *;
    NextNumberIsNew(sys, 0);
    wire := StartStep(sys, b.data);
    PartsOfInv(sys, 0);
    PartsOfInv(sys, 1);
    DistinctIds(sys, 0);
    Started(sys.engines[0], sys.engines[1], b.data);
    SameBlock(b);
    NotEmpty(key, b, wire);
  }

  lemma SameBlock(b: Block)
    requires b.red
    ensures Block(b.data, true) == b
  {
  }

  lemma StartStep(sys: System, data: seq<byte>) returns (wire: seq<Segment>)
    requires Inv(sys) && Shaped(sys) && !Full(sys.engines[0])
    ensures sys.engines[0].config.maxSegmentSize > 0
    ensures var s1 := Step(sys, Start(0, data, true));
            var o := StartSession(sys.engines[0], data, true).0;
            && Inv(s1) && Shaped(s1) && IdOf(s1, 0) == IdOf(sys, 0) && IdOf(s1, 1) == IdOf(sys, 1)
            && s1.engines[0] == o.engine && s1.engines[1] == sys.engines[1] && wire == o.sent
            && (forall seg :: seg in wire ==> seg in s1.sent[0])
            && forall key :: DeliveriesOf(s1.log, key) == DeliveriesOf(sys.log, key)
  {
    hide Inv, EngineOk, StartSession, NextLive, NextRounds, NextBlocks, NextArrivals, Logged, Receiving, DeliveriesOf,
      SessionsFit, SentFits, LiveFits;
    var a := Start(0, data, true);
    PartsOfInv(sys, 0);
    StepKeepsInv(sys, a);
    HandlerKeepsConfig(sys, a);
    StartOutcome(sys.engines[0], data, true);
    NothingLogged(IdOf(sys, 0), Marked(sys, a));
    assert sys.log + [] == sys.log;
    wire := Handle(sys, a).sent;
  }

  lemma NotEmpty(key: Key, b: Block, wire: seq<Segment>)
    requires ClosedByCheckpoint(key, b, wire)
    ensures |wire| > 0
  {
  }

  /** What the receiver claims once it has the whole block. */
  lemma Whole(start: Engine, e: Engine, key: Key, b: Block, got: seq<Claim>)
    requires Collecting(start, e, key, b, got, true) && key.engineId != start.config.localEngineId && CoversBlock(b, got)
    ensures key in e.sessions && Claims(b, e.sessions[key].ranges) && CoversBlock(b, e.sessions[key].ranges)
  {
    hide Collecting, Covers, CoversBlock, Claims;
    CollectedRanges(start, e, key, b, got);
    SameCoverage(b, got, e.sessions[key].ranges);
  }

  lemma RoomAgain(before: System, after: System)
    requires Shaped(before) && Shaped(after) && !Full(before.engines[1])
    requires after.engines[1].sessions == before.engines[1].sessions && after.engines[1].config == before.engines[1].config
    ensures !Full(after.engines[1]) && IdOf(after, 1) == IdOf(before, 1)
  {
  }

  lemma RunsJoin(sys: System, data: seq<byte>, wire: seq<Segment>, report: Segment, ack: Segment)
    requires Inv(sys)
    ensures Inv(Step(sys, Start(0, data, true)))
    ensures var s2 := Run(Step(sys, Start(0, data, true)), Handing(1, wire));
            var s4 := Run(Run(s2, Handing(0, [report])), Handing(1, [ack]));
            Run(sys, Replayed(data, wire, report, ack)) == Run(Run(s4, Handing(1, wire)), Handing(1, [ack]))
  {
    hide Inv, Step, Run, Handing;
    var a := [Start(0, data, true)];
    RunOfOne(sys, a[0]);
    var w, r, k := Handing(1, wire), Handing(0, [report]), Handing(1, [ack]);
    RunConcat(sys, a, w);
    RunConcat(sys, a + w, r);
    RunConcat(sys, a + w + r, k);
    RunConcat(sys, a + w + r + k, w);
    RunConcat(sys, a + w + r + k + w, k);
  }

  lemma AfterIsRun(c0: Config, c1: Config, actions: seq<Action>)
    requires Configured(c0, c1)
    ensures Inv(Initial(c0, c1)) && After(c0, c1, actions) == Run(Initial(c0, c1), actions)
  {
    hide Inv, Initial, Run;
    InitialInv(c0, c1);
  }
}
