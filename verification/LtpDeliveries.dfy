/** How often a block is delivered: once per receiver session, no more and, unless a session is
    cancelled or still stored, no less. A late segment can open another session for a block that was
    delivered already, and then it is delivered again. */
module LtpDeliveries {
  import opened Basics
  import opened Bits
  import opened Ranges
  import opened LtpSegment
  import opened LtpEngineSpec
  import opened LtpEngineInvariant
  import opened LtpSystem
  import opened LtpSystemSafety
  import opened LtpRuns

  // ----- counting -----

  function EventsFor(events: seq<Event>, key: Key): nat {
    if |events| == 0 then 0
    else (if events[0].Delivered? && events[0].key == key then 1 else 0) + EventsFor(events[1..], key)
  }

  /** How often the application was handed data for `key`. */
  function DeliveriesOf(log: seq<LogEntry>, key: Key): nat {
    if |log| == 0 then 0
    else (if log[0].DeliveryLogged? && log[0].key == key then 1 else 0) + DeliveriesOf(log[1..], key)
  }

  lemma {:induction false} DeliveriesConcat(a: seq<LogEntry>, c: seq<LogEntry>, key: Key)
    ensures DeliveriesOf(a + c, key) == DeliveriesOf(a, key) + DeliveriesOf(c, key)
    decreases |a|
  {
    if |a| == 0 {
      assert a + c == c;
    } else {
      DeliveriesConcat(a[1..], c, key);
      assert (a + c)[1..] == a[1..] + c;
    }
  }

  lemma {:induction false} LoggedDeliveries(id: nat, marks: Marks, events: seq<Event>, key: Key)
    ensures DeliveriesOf(Logged(id, marks, events), key) == EventsFor(events, key)
    decreases |events|
  {
    if |events| > 0 {
      var first := LogOf(id, marks, events[0]);
      LoggedDeliveries(id, marks, events[1..], key);
      DeliveriesConcat(first, Logged(id, marks, events[1..]), key);
      assert |first| > 0 ==> first[1..] == [];
      assert DeliveriesOf([], key) == 0;
    }
  }

  // ----- what one handler does -----

  /** A receiver session for `key` is stored here. */
  function Keeps(e: Engine, key: Key): nat {
    if key.engineId != e.config.localEngineId && key in e.sessions then 1 else 0
  }

  /** A session that is opened is delivered, dropped or kept. */
  ghost predicate Accounted(e: Engine, o: Outcome, key: Key, opens: nat, drops: nat) {
    && o.engine.config == e.config
    && EventsFor(o.events, key) + Keeps(o.engine, key) + drops == Keeps(e, key) + opens
  }

  lemma NoEvents(key: Key)
    ensures EventsFor([], key) == 0
  {
  }

  lemma OneEventFor(event: Event, key: Key)
    ensures EventsFor([event], key) == if event.Delivered? && event.key == key then 1 else 0
  {
    assert [event][1..] == [];
  }

  lemma StartIsAccounted(e: Engine, data: seq<byte>, reliable: bool, key: Key)
    requires EngineOk(e)
    ensures Accounted(e, StartSession(e, data, reliable).0, key, 0, 0)
  {
    hide SegmentBlock, CountSentAll, EventsFor, SessionOk;
    NoEvents(key);
  }

  lemma DataIsAccounted(e: Engine, seg: Segment, key: Key)
    requires EngineOk(e) && FromPeer(e, seg) && IsData(seg.segmentType)
    ensures Accounted(e, ReceiveData(e, seg), key,
                      if KeyOf(seg) == key && Accepts(e, key) && key !in e.sessions then 1 else 0, 0)
  {
    hide Absorb, SessionOk, Balance, EventsFor;
    NoEvents(key);
    if Accepts(e, KeyOf(seg)) {
      if KeyOf(seg) in e.sessions { SessionNumberOf(e, KeyOf(seg)); }
      DataOutcome(e, seg);
      var events := ReceiveData(e, seg).events;
      if events != [] {
        assert events == [events[0]];
        OneEventFor(events[0], key);
      }
      hide ReceiveData;
    }
  }

  lemma ReportIsAccounted(e: Engine, seg: Segment, key: Key)
    requires EngineOk(e) && Receivable(e, seg) && seg.segmentType == REPORT_SEGMENT
    ensures Accounted(e, ReceiveReport(e, seg), key, 0, 0)
  {
    hide Gaps, CutAll, RetransmitSegments, CountSentAll, SessionOk, EventsFor;
    NoEvents(key);
    ReportEvents(e, seg);
    GapsCoverTheRest(seg.content.claims, seg.content.lowerBound, seg.content.upperBound);
    var own := Key(e.config.localEngineId, seg.sessionNumber);
    if own in e.sessions { SessionNumberOf(e, own); }
    var events := ReceiveReport(e, seg).events;
    if events != [] {
      assert events == [events[0]];
      OneEventFor(events[0], key);
    }
  }

  lemma AckIsAccounted(e: Engine, seg: Segment, key: Key)
    requires EngineOk(e) && Receivable(e, seg) && seg.segmentType == REPORT_ACK
    ensures Accounted(e, LtpEngineSpec.ReceiveReportAck(e, seg), key, 0, 0)
  {
    hide SessionOk, EventsFor;
    NoEvents(key);
    if KeyOf(seg) in e.sessions { SessionNumberOf(e, KeyOf(seg)); }
    var events := LtpEngineSpec.ReceiveReportAck(e, seg).events;
    if events != [] { OneEventFor(events[0], key); }
  }

  lemma CancelIsAccounted(e: Engine, cancelled: Key, reason: byte, key: Key)
    ensures Accounted(e, CancelSession(e, cancelled, reason), key, 0, if cancelled == key then Keeps(e, key) else 0)
  {
    hide EventsFor;
    NoEvents(key);
    var events := CancelSession(e, cancelled, reason).events;
    if events != [] { OneEventFor(events[0], key); }
  }

  lemma CancelSegmentIsAccounted(e: Engine, seg: Segment, key: Key)
    requires IsCancel(seg.segmentType) && seg.content.CancelContent?
    ensures Accounted(e, ReceiveCancel(e, seg), key, 0, if KeyOf(seg) == key then Keeps(e, key) else 0)
  {
    hide EventsFor;
    NoEvents(key);
    var events := ReceiveCancel(e, seg).events;
    if events != [] { OneEventFor(events[0], key); }
  }

  lemma TimerIsAccounted(e: Engine, event: TimerEvent, key: Key)
    requires EngineOk(e)
    ensures Accounted(e, TimerExpired(e, event), key, 0, 0)
  {
    hide SegmentBlock, CountSentAll, SessionOk, EventsFor;
    NoEvents(key);
    var own := Key(e.config.localEngineId, event.sessionNumber);
    if own in e.sessions { SessionNumberOf(e, own); }
    var events := TimerExpired(e, event).events;
    if events != [] { OneEventFor(events[0], key); }
  }

  // ----- what one step does -----

  /** The action makes a receiver create a session for `key`. */
  predicate Opens(sys: System, a: Action, key: Key)
    requires Shaped(sys)
  {
    Enabled(sys, a) && TakesData(sys, a) && KeyOf(a.seg) == key && key !in sys.engines[a.who].sessions
  }

  /** The action cancels the receiver session for `key`. */
  predicate Drops(sys: System, a: Action, key: Key)
    requires Shaped(sys)
  {
    && Enabled(sys, a) && key.engineId != IdOf(sys, a.who) && key in sys.engines[a.who].sessions
    && ((a.Cancel? && a.key == key) || (a.Deliver? && IsCancel(a.seg.segmentType) && KeyOf(a.seg) == key))
  }

  function Stored(sys: System, key: Key): nat
    requires Shaped(sys)
  {
    if Receiving(sys.engines, key) then 1 else 0
  }

  lemma HandlerIsAccounted(sys: System, a: Action, key: Key)
    requires Inv(sys) && Enabled(sys, a) && (a.Deliver? ==> FromPeer(sys.engines[a.who], a.seg))
    requires sys.engines[a.who].config.maxSegmentSize > 0
    ensures Accounted(sys.engines[a.who], Handle(sys, a), key,
                      if Opens(sys, a, key) then 1 else 0, if Drops(sys, a, key) then 1 else 0)
  {
    hide Inv, EngineOk, Accounted, ReceiveData, ReceiveReport, StartSession, TimerExpired, CancelSession, ReceiveCancel,
      LtpEngineSpec.ReceiveReportAck;
    PartsOfInv(sys, a.who);
    var e := sys.engines[a.who];
    match a
    case Start(_, data, reliable) => StartIsAccounted(e, data, reliable, key);
    case Deliver(_, seg) =>
      if IsData(seg.segmentType) {
        DataIsAccounted(e, seg, key);
      } else if seg.segmentType == REPORT_SEGMENT {
        ReportIsAccounted(e, seg, key);
      } else if seg.segmentType == REPORT_ACK {
        AckIsAccounted(e, seg, key);
      } else if IsCancel(seg.segmentType) {
        CancelSegmentIsAccounted(e, seg, key);
      } else {
        CancelAckIsAccounted(e, seg, key);
      }
    case Expire(_, event) => TimerIsAccounted(e, event, key);
    case Cancel(_, cancelled, reason) => CancelIsAccounted(e, cancelled, reason, key);
  }

  lemma CancelAckIsAccounted(e: Engine, seg: Segment, key: Key)
    requires EngineOk(e) && Receivable(e, seg) && e.config.maxSegmentSize > 0
    requires !IsData(seg.segmentType) && seg.segmentType != REPORT_SEGMENT && seg.segmentType != REPORT_ACK
    requires !IsCancel(seg.segmentType)
    ensures Accounted(e, ReceiveSegment(e, seg), key, 0, 0)
  {
    hide SessionOk, EventsFor;
    NoEvents(key);
    if KeyOf(seg) in e.sessions { SessionNumberOf(e, KeyOf(seg)); }
  }

  lemma EngineAccounts(sys: System, a: Action, o: Outcome, next: System, key: Key, opens: nat, drops: nat)
    requires Shaped(sys) && a.who < 2 && IsStep(sys, a, o, next)
    requires Accounted(sys.engines[a.who], o, key, opens, drops)
    requires key.engineId in {IdOf(sys, 0), IdOf(sys, 1)}
    ensures Shaped(next)
    ensures DeliveriesOf(next.log, key) + Stored(next, key) + drops == DeliveriesOf(sys.log, key) + Stored(sys, key) + opens
  {
    hide EventsFor, DeliveriesOf, NextBlocks, NextArrivals, NextLive, NextRounds, Logged;
    LoggedDeliveries(IdOf(sys, a.who), Marked(sys, a), o.events, key);
    DeliveriesConcat(sys.log, Logged(IdOf(sys, a.who), Marked(sys, a), o.events), key);
  }

  /** One step: a receiver session that is opened is delivered, cancelled or still stored. */
  lemma StepAccounts(sys: System, a: Action, key: Key)
    requires Inv(sys) && Shaped(sys) && key.engineId in {IdOf(sys, 0), IdOf(sys, 1)}
    ensures var next := Step(sys, a);
            && Shaped(next) && IdOf(next, 0) == IdOf(sys, 0) && IdOf(next, 1) == IdOf(sys, 1)
            && DeliveriesOf(next.log, key) + Stored(next, key) + (if Drops(sys, a, key) then 1 else 0)
               == DeliveriesOf(sys.log, key) + Stored(sys, key) + if Opens(sys, a, key) then 1 else 0
  {
    hide Inv, Handle, NextLive, NextRounds, NextBlocks, NextArrivals, Logged, Receiving, EngineOk, Receivable, Accounted, DeliveriesOf,
      TakesData, Stored;
    if Enabled(sys, a) {
      PartsOfInv(sys, a.who);
      if a.Deliver? { InFlightIsReceivable(sys, a.who, a.seg); }
      HandlerKeepsConfig(sys, a);
      HandlerIsAccounted(sys, a, key);
      var o, next := Handle(sys, a), Next(sys, a);
      assert IsStep(sys, a, o, next);
      EngineAccounts(sys, a, o, next, key, if Opens(sys, a, key) then 1 else 0, if Drops(sys, a, key) then 1 else 0);
    }
  }

  // ----- every run -----

  /** How often a run makes a receiver create a session for `key`. */
  function Opened(sys: System, actions: seq<Action>, key: Key): nat
    requires Inv(sys)
    decreases |actions|
  {
    if |actions| == 0 then 0
    else
      StepKeepsInv(sys, actions[0]);
      (if Shaped(sys) && Opens(sys, actions[0], key) then 1 else 0) + Opened(Step(sys, actions[0]), actions[1..], key)
  }

  /** How often a run cancels such a session. */
  function Dropped(sys: System, actions: seq<Action>, key: Key): nat
    requires Inv(sys)
    decreases |actions|
  {
    if |actions| == 0 then 0
    else
      StepKeepsInv(sys, actions[0]);
      (if Shaped(sys) && Drops(sys, actions[0], key) then 1 else 0) + Dropped(Step(sys, actions[0]), actions[1..], key)
  }

  lemma {:induction false} RunAccounts(sys: System, actions: seq<Action>, key: Key)
    requires Inv(sys) && Shaped(sys) && key.engineId in {IdOf(sys, 0), IdOf(sys, 1)}
    ensures var after := Run(sys, actions);
            && Shaped(after)
            && DeliveriesOf(after.log, key) + Stored(after, key) + Dropped(sys, actions, key)
               == DeliveriesOf(sys.log, key) + Stored(sys, key) + Opened(sys, actions, key)
    decreases |actions|
  {
    hide Inv, Step, Stored, DeliveriesOf, Opens, Drops;
    if |actions| > 0 {
      StepKeepsInv(sys, actions[0]);
      StepAccounts(sys, actions[0], key);
      RunAccounts(Step(sys, actions[0]), actions[1..], key);
    }
  }

  /** Deliveries per block, in every run: as many as receiver sessions were opened for it, less those
      cancelled and the one that may still be stored. So a block is delivered again exactly when a
      data segment finds no session for it, and the session it opens is neither cancelled nor kept. */
  lemma DeliveredOncePerSession(c0: Config, c1: Config, actions: seq<Action>, key: Key)
    requires Configured(c0, c1) && key.engineId in {c0.localEngineId, c1.localEngineId}
    ensures Inv(Initial(c0, c1))
    ensures var sys := After(c0, c1, actions);
            DeliveriesOf(sys.log, key) + Stored(sys, key) + Dropped(Initial(c0, c1), actions, key)
            == Opened(Initial(c0, c1), actions, key)
  {
    hide Inv, Initial, Run, Stored, DeliveriesOf, Opened, Dropped;
    InitialInv(c0, c1);
    var sys := Initial(c0, c1);
    NothingAtFirst(c0, c1, sys, key);
    RunAccounts(sys, actions, key);
  }

  lemma NothingAtFirst(c0: Config, c1: Config, sys: System, key: Key)
    requires sys == Initial(c0, c1) && Configured(c0, c1)
    ensures Shaped(sys) && IdOf(sys, 0) == c0.localEngineId && IdOf(sys, 1) == c1.localEngineId
    ensures Stored(sys, key) == 0 && DeliveriesOf(sys.log, key) == 0
  {
  }

  /** The action hands a data segment of `key` to a receiver. */
  predicate BringsData(a: Action, key: Key) {
    a.Deliver? && IsData(a.seg.segmentType) && KeyOf(a.seg) == key
  }

  lemma {:induction false} OpenedNeedsData(sys: System, actions: seq<Action>, key: Key)
    requires Inv(sys) && forall a :: a in actions ==> !BringsData(a, key)
    ensures Opened(sys, actions, key) == 0
    decreases |actions|
  {
    hide Inv, Step;
    if |actions| > 0 {
      StepKeepsInv(sys, actions[0]);
      assert actions[0] in actions;
      OpenedNeedsData(Step(sys, actions[0]), actions[1..], key);
    }
  }

  /** Without new data segments, replayed acknowledgments, reports, cancels and expiries never deliver
      a block twice: from any reachable state at most one more delivery follows, and none when no
      session for the block is stored. */
  lemma NoDataNoRedelivery(c0: Config, c1: Config, actions: seq<Action>, more: seq<Action>, key: Key)
    requires Configured(c0, c1) && key.engineId in {c0.localEngineId, c1.localEngineId}
    requires forall a :: a in more ==> !BringsData(a, key)
    ensures var sys := After(c0, c1, actions);
            DeliveriesOf(Run(sys, more).log, key) <= DeliveriesOf(sys.log, key) + Stored(sys, key)
  {
    hide Inv, Initial, Stored, DeliveriesOf, Opened, Dropped;
    InitialInv(c0, c1);
    var sys := After(c0, c1, actions);
    PartsOfInv(sys, 0);
    NothingAtFirst(c0, c1, Initial(c0, c1), key);
    IdsStay(Initial(c0, c1), actions);
    RunAccounts(sys, more, key);
    OpenedNeedsData(sys, more, key);
  }

  /** Between two deliveries of a block a data segment of it has been received. */
  lemma RedeliveryNeedsData(c0: Config, c1: Config, actions: seq<Action>, more: seq<Action>, key: Key)
    requires Configured(c0, c1) && key.engineId in {c0.localEngineId, c1.localEngineId}
    requires DeliveriesOf(Run(After(c0, c1, actions), more).log, key) >= DeliveriesOf(After(c0, c1, actions).log, key) + 2
    ensures exists a :: a in more && BringsData(a, key)
  {
    hide After, DeliveriesOf, Run, Inv;
    if forall a :: a in more ==> !BringsData(a, key) {
      NoDataNoRedelivery(c0, c1, actions, more, key);
    }
  }

  lemma {:induction false} IdsStay(sys: System, actions: seq<Action>)
    requires Inv(sys) && Shaped(sys)
    ensures var after := Run(sys, actions);
            Shaped(after) && IdOf(after, 0) == IdOf(sys, 0) && IdOf(after, 1) == IdOf(sys, 1)
    decreases |actions|
  {
    hide Inv, Step;
    if |actions| > 0 {
      StepKeepsInv(sys, actions[0]);
      StepAccounts(sys, actions[0], Key(IdOf(sys, 0), 0));
      IdsStay(Step(sys, actions[0]), actions[1..]);
    }
  }

  // ----- when an acknowledgment delivers -----

  /** Whether an acknowledgment is answered with a delivery: a receiver session is stored, and its
      length is still unknown or it has taken in the whole block. */
  ghost predicate ReadyToDeliver(sys: System, i: nat, key: Key)
    requires Shaped(sys) && i < 2
  {
    && key.engineId != IdOf(sys, i) && key in sys.engines[i].sessions
    && var total := sys.engines[i].sessions[key].totalDataLength;
       total == 0 || forall x: nat :: x < total ==> Covers(LiveIn(sys.live, key), x)
  }

  /** An acknowledgment in flight, replayed or not, delivers if and only if the session is ready; it
      hands over the block if its length is known and nothing otherwise. */
  lemma AckDeliversIff(sys: System, i: nat, seg: Segment)
    requires Inv(sys) && i < 2 && seg in sys.sent[1 - i] && seg.segmentType == REPORT_ACK
    ensures Shaped(sys)
    ensures var key := KeyOf(seg);
            var log := Step(sys, Deliver(i, seg)).log;
            if ReadyToDeliver(sys, i, key) then
              && |log| == |sys.log| + 1 && log[..|sys.log|] == sys.log
              && key in sys.blocks
              && log[|sys.log|].DeliveryLogged? && log[|sys.log|].key == key
              && log[|sys.log|].data == (if sys.engines[i].sessions[key].totalDataLength == 0 then [] else sys.blocks[key].data)
            else log == sys.log
  {
    hide Inv, Step, Logged, IsComplete, Covers, EngineOk, SentFits, SessionsFit, LiveFits;
    PartsOfInv(sys, i);
    if KeyOf(seg) in sys.engines[i].sessions {
      RolesFit(sys, i, KeyOf(seg));
      if KeyOf(seg).engineId != IdOf(sys, i) { StoredReady(sys, i, KeyOf(seg)); }
    }
    LogOfAck(sys, i, seg);
  }

  /** What the acknowledgment adds to the log. */
  lemma LogOfAck(sys: System, i: nat, seg: Segment)
    requires Inv(sys) && i < 2 && seg in sys.sent[1 - i] && seg.segmentType == REPORT_ACK
    requires Shaped(sys) && (KeyOf(seg) in sys.engines[i].sessions ==> OneSession(sys, i, KeyOf(seg)))
    ensures var key, sessions := KeyOf(seg), sys.engines[i].sessions;
            Step(sys, Deliver(i, seg)).log == sys.log +
            if key in sessions && key.engineId != IdOf(sys, i)
               && IsComplete(sessions[key].ranges, sessions[key].totalDataLength) then
              [DeliveryLogged(key, true, key in sys.eob, sessions[key].clientData[..sessions[key].totalDataLength],
                              sessions[key].ranges, LiveIn(sys.live, key))]
            else []
  {
    hide Inv, Step, Logged, IsComplete, SessionsFit, SentFits, LiveFits, EngineOk;
    var e := sys.engines[i];
    StepOfAck(sys, i, seg);
    var o := LtpEngineSpec.ReceiveReportAck(e, seg);
    NothingLogged(IdOf(sys, i), Now(sys));
    if o.events != [] { OneEvent(IdOf(sys, i), Now(sys), o.events[0]); }
  }

  lemma StepOfAck(sys: System, i: nat, seg: Segment)
    requires Inv(sys) && i < 2 && seg in sys.sent[1 - i] && seg.segmentType == REPORT_ACK
    ensures Shaped(sys) && Receivable(sys.engines[i], seg)
    ensures Step(sys, Deliver(i, seg)).log
            == sys.log + Logged(IdOf(sys, i), Now(sys), LtpEngineSpec.ReceiveReportAck(sys.engines[i], seg).events)
  {
    hide Inv, Marked, NextRounds, NextBlocks, NextArrivals, Receiving, EngineOk, SentFits, SessionsFit, LiveFits, Logged,
      IsComplete, SessionOk, LiveIn, LtpEngineSpec.ReceiveReportAck;
    PartsOfInv(sys, i);
    InFlightIsReceivable(sys, i, seg);
    AckMarksNothing(sys, Deliver(i, seg));
  }

  lemma AckMarksNothing(sys: System, a: Action)
    requires Shaped(sys) && a.who < 2 && a.Deliver? && a.seg.segmentType == REPORT_ACK
    ensures Marked(sys, a) == Now(sys)
  {
  }

  /** The role a session has follows from its key, and its length does not exceed its buffer. */
  ghost predicate OneSession(sys: System, i: nat, key: Key)
    requires Shaped(sys) && i < 2 && key in sys.engines[i].sessions
  {
    var s := sys.engines[i].sessions[key];
    && s.role == (if key.engineId == IdOf(sys, i) then ORIGINATOR else RECEIVER)
    && s.totalDataLength <= |s.clientData|
  }

  lemma RolesFit(sys: System, i: nat, key: Key)
    requires Inv(sys) && i < 2 && Shaped(sys) && key in sys.engines[i].sessions
    ensures OneSession(sys, i, key)
  {
    hide Inv;
    StoredFits(sys, i, key);
  }

  /** A stored receiver session: it is complete if and only if it is ready. */
  lemma StoredReady(sys: System, i: nat, key: Key)
    requires Inv(sys) && i < 2 && Shaped(sys) && key in sys.engines[i].sessions && key.engineId != IdOf(sys, i)
    ensures key in sys.blocks && OneSession(sys, i, key)
    ensures var s := sys.engines[i].sessions[key];
            && (IsComplete(s.ranges, s.totalDataLength) <==> ReadyToDeliver(sys, i, key))
            && (IsComplete(s.ranges, s.totalDataLength) ==>
                  s.clientData[..s.totalDataLength] == if s.totalDataLength == 0 then [] else sys.blocks[key].data)
  {
    hide Inv, ReceiverFits, IsComplete, Covers, LiveIn;
    StoredFits(sys, i, key);
    ReadyMeansComplete(sys.blocks[key], sys.engines[i].sessions[key], LiveIn(sys.live, key), key in sys.eob);
  }

  lemma ReadyMeansComplete(b: Block, s: Session, taken: seq<Claim>, sawEob: bool)
    requires ReceiverFits(b, s, taken, sawEob) && Canonical(s.ranges) && s.totalDataLength <= |s.clientData|
    ensures IsComplete(s.ranges, s.totalDataLength)
            <==> s.totalDataLength == 0 || forall x: nat :: x < s.totalDataLength ==> Covers(taken, x)
    ensures IsComplete(s.ranges, s.totalDataLength) ==>
              s.clientData[..s.totalDataLength] == if s.totalDataLength == 0 then [] else b.data
  {
    if s.totalDataLength > 0 { CompleteIffCovered(s.ranges, s.totalDataLength); }
  }

  // ----- when green data delivers -----

  /** A data segment in flight that is taken in delivers if and only if it is the end of a green block: the
      block's length, every byte the session has taken in, and zeros elsewhere. */
  lemma GreenDeliversIff(sys: System, i: nat, seg: Segment)
    requires Inv(sys) && i < 2 && seg in sys.sent[1 - i] && IsData(seg.segmentType)
    requires Shaped(sys) && Accepts(sys.engines[i], KeyOf(seg))
    ensures var key := KeyOf(seg);
            var log := Step(sys, Deliver(i, seg)).log;
            && key in sys.blocks && seg.content.DataContent?
            && if IsGreen(seg.segmentType) && HasEob(seg.segmentType) then
                 && |log| == |sys.log| + 1 && log[..|sys.log|] == sys.log
                 && log[|sys.log|].DeliveryLogged? && log[|sys.log|].key == key && !log[|sys.log|].red
                 && GreenFits(sys.blocks[key], log[|sys.log|].data, log[|sys.log|].tracked,
                              TakenBefore(sys, i, key) + [Claim(seg.content.offset, seg.content.length)])
               else log == sys.log
  {
    hide Inv, Step, Logged, Absorb, ReceiverFor, ReceiverFits, GreenFits, Covers, EngineOk, SentFits, SessionsFit, LiveFits, Canonical,
      Within, DataFits, Balance, ReceiveData, Marked, TakenBefore;
    var key, e := KeyOf(seg), sys.engines[i];
    PartsOfInv(sys, i);
    InFlightIsReceivable(sys, i, seg);
    AcceptedFits(sys, i, seg);
    DataOutcome(e, seg);
    StepOfDelivery(sys, i, seg);
    var marks := Marked(sys, Deliver(i, seg));
    var o := ReceiveData(e, seg);
    NothingLogged(IdOf(sys, i), marks);
    if o.events != [] {
      OneEvent(IdOf(sys, i), marks, o.events[0]);
      AbsorbedGreen(sys.blocks[key], ReceiverFor(e, seg), seg, TakenBefore(sys, i, key), key in sys.eob);
    }
  }

  lemma StepOfDelivery(sys: System, i: nat, seg: Segment)
    requires Inv(sys) && i < 2 && seg in sys.sent[1 - i] && IsData(seg.segmentType)
    ensures Shaped(sys) && Receivable(sys.engines[i], seg)
    ensures Step(sys, Deliver(i, seg)).log
            == sys.log + Logged(IdOf(sys, i), Marked(sys, Deliver(i, seg)), ReceiveData(sys.engines[i], seg).events)
  {
    hide Inv, Marked, NextRounds, NextBlocks, NextArrivals, Receiving, EngineOk, SentFits, SessionsFit, LiveFits, Logged,
      SessionOk, LiveIn, ReceiveData;
    PartsOfInv(sys, i);
    InFlightIsReceivable(sys, i, seg);
  }

  lemma AbsorbedGreen(b: Block, s0: Session, seg: Segment, taken: seq<Claim>, sawEob: bool)
    requires seg.content.DataContent? && DataFits(b, seg) && HasEob(seg.segmentType)
    requires ReceiverFits(b, s0, taken, sawEob) && Canonical(s0.ranges) && Within(s0.ranges, 0, |s0.clientData|)
    requires s0.totalDataLength <= |s0.clientData|
    ensures var s1 := Absorb(s0, seg);
            && s1.totalDataLength <= |s1.clientData|
            && GreenFits(b, s1.clientData[..s1.totalDataLength], s1.ranges, taken + [Claim(seg.content.offset, seg.content.length)])
  {
    hide AddRange, Store, Covers;
    AbsorbFits(b, s0, seg, taken, sawEob);
    StoreAt(s0, seg);
  }
}
