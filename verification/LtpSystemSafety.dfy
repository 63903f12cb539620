/** Every step of every run keeps the system invariant. */
module LtpSystemSafety {
  import opened Basics
  import opened Bits
  import opened Ranges
  import opened LtpSegment
  import opened LtpEngineSpec
  import opened LtpEngineInvariant
  import opened LtpSystem

  lemma PartsOfInv(sys: System, i: nat)
    requires Inv(sys) && i < 2
    ensures Shaped(sys) && EngineOk(sys.engines[i]) && sys.engines[i].config.maxSegmentSize > 0
    ensures SessionsFit(sys, i) && SentFits(sys, i) && LiveFits(sys)
  {
    hide SessionsFit, SentFits, BlocksFit, EobFits, LiveFits, LogFits, SessionOk;
  }

  /** One stored session, out of the invariant. */
  lemma StoredFits(sys: System, i: nat, k: Key)
    requires Inv(sys) && i < 2 && k in sys.engines[i].sessions
    ensures Shaped(sys) && SessionFits(sys, i, k, sys.engines[i].sessions[k])
    ensures SessionOk(sys.engines[i], k, sys.engines[i].sessions[k])
  {
    hide SentFits, BlocksFit, EobFits, LiveFits, LogFits, SessionFits, SessionOk;
  }

  /** One segment in flight, out of the invariant. */
  lemma FlightFits(sys: System, i: nat, seg: Segment)
    requires Inv(sys) && i < 2 && seg in sys.sent[i]
    ensures Shaped(sys) && SegmentFits(sys, i, seg)
  {
    hide SessionsFit, EngineOk, BlocksFit, EobFits, LiveFits, LogFits, SegmentFits;
  }

  lemma FreshHasNoEob(sys: System, i: nat, k: Key)
    requires Inv(sys) && i < 2 && k !in sys.engines[i].sessions && k.engineId == IdOf(sys, 1 - i)
    ensures k !in sys.eob
  {
    hide SessionsFit, SentFits, EngineOk, BlocksFit, LiveFits, LogFits;
  }

  lemma PartsOfExtends(sys: System, next: System)
    requires Extends(sys, next)
    ensures Shaped(sys) && Shaped(next) && IdOf(next, 0) == IdOf(sys, 0) && IdOf(next, 1) == IdOf(sys, 1)
  {
  }

  /** History only grows. */
  ghost predicate Extends(sys: System, next: System) {
    && Shaped(sys) && Shaped(next)
    && IdOf(next, 0) == IdOf(sys, 0) && IdOf(next, 1) == IdOf(sys, 1)
    && (forall k :: k in sys.blocks ==> k in next.blocks && next.blocks[k] == sys.blocks[k])
    && (forall k, x: nat :: Covers(Arrived(sys, k), x) ==> Covers(Arrived(next, k), x))
  }

  lemma SegmentStillFits(sys: System, next: System, i: nat, seg: Segment)
    requires Extends(sys, next) && i < 2 && SegmentFits(sys, i, seg)
    ensures SegmentFits(next, i, seg)
  {
  }

  lemma EntryStillFits(sys: System, next: System, entry: LogEntry)
    requires Extends(sys, next) && EntryFits(sys, entry)
    ensures EntryFits(next, entry)
  {
  }

  lemma SessionStillFits(sys: System, next: System, i: nat, k: Key, s: Session)
    requires Extends(sys, next) && i < 2 && SessionFits(sys, i, k, s)
    requires k.engineId != IdOf(sys, i) ==> (k in next.eob <==> k in sys.eob) && LiveIn(next.live, k) == LiveIn(sys.live, k)
    ensures SessionFits(next, i, k, s)
  {
  }

  ghost predicate StoredFit(next: System, i: nat, sessions: map<Key, Session>)
    requires Shaped(next) && i < 2
  {
    forall k :: k in sessions ==> SessionFits(next, i, k, sessions[k])
  }

  ghost predicate AllFit(next: System, i: nat, sent: seq<Segment>)
    requires Shaped(next) && i < 2
  {
    forall seg :: seg in sent ==> SegmentFits(next, i, seg)
  }

  ghost predicate EntriesFit(next: System, entries: seq<LogEntry>) {
    forall j :: 0 <= j < |entries| ==> EntryFits(next, entries[j])
  }

  /** The marks after the step, on the sessions engine `i` stores for its peer. */
  ghost predicate MarksAgree(next: System, i: nat, marks: Marks, sessions: map<Key, Session>)
    requires Shaped(next) && i < 2
  {
    forall k :: k in sessions && k.engineId != IdOf(next, i) ==>
      (k in next.eob <==> k in marks.eob) && LiveIn(next.live, k) == LiveIn(marks.live, k)
  }

  /** What a handler must leave behind, judged against the history after the step. */
  ghost predicate OutcomeFits(next: System, i: nat, o: Outcome, marked: Marks)
    requires Shaped(next) && i < 2
  {
    && StoredFit(next, i, o.engine.sessions)
    && AllFit(next, i, o.sent)
    && EntriesFit(next, Logged(IdOf(next, i), marked, o.events))
  }

  lemma NothingLogged(id: nat, marked: Marks)
    ensures Logged(id, marked, []) == []
  {
  }

  lemma OneEvent(id: nat, marked: Marks, event: Event)
    ensures Logged(id, marked, [event]) == LogOf(id, marked, event)
  {
    NothingLogged(id, marked);
    assert [event][1..] == [];
  }

  // ----- segments an originator makes -----

  /** One piece of an originator's block, as a segment. */
  lemma PieceFits(sys: System, i: nat, s: Session, b: Block, t: nat, piece: Claim, serial: Option<nat>)
    requires Shaped(sys) && i < 2 && piece.End() <= |s.clientData| && s.clientData == b.data
    requires s.engineId == IdOf(sys, i) && Key(s.engineId, s.sessionNumber) in sys.blocks
    requires sys.blocks[Key(s.engineId, s.sessionNumber)] == b
    requires IsData(t) && (IsRed(t) <==> b.red) && (HasEob(t) ==> piece.End() == |b.data|)
    requires HasCheckpoint(t) <==> serial.Some?
    ensures SegmentFits(sys, i, DataSegment(s, t, piece, serial))
  {
    hide ReportFits;
  }

  lemma {:induction false} LastPieceEnds(offset: nat, remaining: nat, maxSeg: nat)
    requires maxSeg > 0 && remaining > 0
    ensures var pieces := Cut(offset, remaining, maxSeg);
            |pieces| > 0 && pieces[|pieces| - 1].End() == offset + remaining
    decreases remaining
  {
    var chunk := Min(maxSeg, remaining);
    if chunk < remaining {
      LastPieceEnds(offset + chunk, remaining - chunk, maxSeg);
    }
  }

  lemma BlockSegmentsFit(sys: System, i: nat, s: Session, maxSeg: nat, seg: Segment)
    requires Shaped(sys) && i < 2 && maxSeg > 0
    requires s.engineId == IdOf(sys, i) && Key(s.engineId, s.sessionNumber) in sys.blocks
    requires var b := sys.blocks[Key(s.engineId, s.sessionNumber)]; s.clientData == b.data && s.isRed == b.red
    requires seg in SegmentBlock(s, maxSeg)
    ensures SegmentFits(sys, i, seg)
  {
    hide SegmentFits, DataSegment;
    var b := sys.blocks[Key(s.engineId, s.sessionNumber)];
    var serial := if s.isRed then Some(s.checkpointSerialCounter + 1) else None;
    var lastType := if s.isRed then RED_DATA_CP_EORP_EOB else GREEN_DATA_EOB;
    if |s.clientData| == 0 {
      PieceFits(sys, i, s, b, lastType, Claim(0, 0), serial);
    } else {
      var pieces := Cut(0, |s.clientData|, maxSeg);
      CutWithin(0, |s.clientData|, maxSeg);
      LastPieceEnds(0, |s.clientData|, maxSeg);
      var j :| 0 <= j < |pieces| && SegmentBlock(s, maxSeg)[j] == seg;
      if j == |pieces| - 1 {
        PieceFits(sys, i, s, b, lastType, pieces[j], serial);
      } else {
        PieceFits(sys, i, s, b, if s.isRed then RED_DATA else GREEN_DATA, pieces[j], None);
      }
    }
  }

  lemma RetransmittedFit(sys: System, i: nat, s: Session, gaps: seq<Claim>, maxSeg: nat, seg: Segment)
    requires Shaped(sys) && i < 2 && maxSeg > 0 && Within(gaps, 0, |s.clientData|)
    requires s.engineId == IdOf(sys, i) && Key(s.engineId, s.sessionNumber) in sys.blocks
    requires var b := sys.blocks[Key(s.engineId, s.sessionNumber)]; s.clientData == b.data && b.red
    requires seg in RetransmitSegments(s, gaps, maxSeg)
    ensures SegmentFits(sys, i, seg)
  {
    hide SegmentFits, DataSegment;
    var b := sys.blocks[Key(s.engineId, s.sessionNumber)];
    var pieces := CutAll(gaps, maxSeg);
    CutAllWithin(gaps, maxSeg, |s.clientData|);
    var j :| 0 <= j < |pieces| && RetransmitSegments(s, gaps, maxSeg)[j] == seg;
    if j == |pieces| - 1 {
      PieceFits(sys, i, s, b, RED_DATA_CP, pieces[j], Some(s.checkpointSerialCounter + 1));
    } else {
      PieceFits(sys, i, s, b, RED_DATA, pieces[j], None);
    }
  }

  // ----- the receiver takes in data -----

  /** A receiver session that has just been created fits any block, and has taken in nothing. */
  lemma NewReceiverFits(b: Block, seg: Segment)
    ensures ReceiverFits(b, NewReceiver(seg), [], false)
  {
  }

  lemma AbsorbFits(b: Block, s: Session, seg: Segment, taken: seq<Claim>, sawEob: bool)
    requires seg.content.DataContent? && DataFits(b, seg)
    requires ReceiverFits(b, s, taken, sawEob) && Canonical(s.ranges) && Within(s.ranges, 0, |s.clientData|)
    requires s.totalDataLength <= |s.clientData|
    ensures ReceiverFits(b, Absorb(s, seg), taken + [Claim(seg.content.offset, seg.content.length)],
                         sawEob || HasEob(seg.segmentType))
  {
    hide AddRange, Store;
    var c := seg.content;
    var a := Absorb(s, seg);
    var more := taken + [Claim(c.offset, c.length)];
    AbsorbKeepsRanges(s, seg);
    StoreAt(s, seg);
    forall x: nat ensures Covers(more, x) <==> Covers(taken, x) || c.offset <= x < c.offset + c.length {
      CoversSnoc(taken, Claim(c.offset, c.length), x);
    }
    forall x: nat | x < |a.clientData|
      ensures a.clientData[x] == if Covers(a.ranges, x) then b.data[x] else 0
    {
      CoveredBelow(s.ranges, x, |s.clientData|);
    }
  }

  lemma StoreAt(s: Session, seg: Segment)
    requires seg.content.DataContent?
    ensures var c, a := seg.content, Absorb(s, seg);
            && |a.clientData| == Max(|s.clientData|, c.offset + |c.data|)
            && forall x :: 0 <= x < |a.clientData| ==>
                 a.clientData[x] == if c.offset <= x < c.offset + |c.data| then c.data[x - c.offset]
                                    else if x < |s.clientData| then s.clientData[x] else 0
  {
  }

  lemma CoversSnoc(r: seq<Claim>, c: Claim, x: nat)
    ensures Covers(r + [c], x) <==> Covers(r, x) || c.Has(x)
  {
    var l := r + [c];
    if Covers(r, x) {
      var j :| 0 <= j < |r| && r[j].Has(x);
      assert l[j].Has(x);
    }
    if c.Has(x) { assert l[|r|].Has(x); }
    if Covers(l, x) {
      var j :| 0 <= j < |l| && l[j].Has(x);
      if j < |r| { assert r[j].Has(x); }
    }
  }

  // ----- one lemma per kind of step -----

  lemma BlocksExtend(sys: System, a: Action, k: Key)
    requires Shaped(sys) && BlocksFit(sys) && a.who < 2 && k in sys.blocks
    ensures k in NextBlocks(sys, a) && NextBlocks(sys, a)[k] == sys.blocks[k]
  {
  }

  lemma ArrivalsExtend(sys: System, a: Action, next: System, k: Key, x: nat)
    requires Shaped(sys) && a.who < 2 && next.arrivals == NextArrivals(sys, a)
    requires Covers(Arrived(sys, k), x)
    ensures Covers(Arrived(next, k), x)
  {
    if TakesData(sys, a) && k == KeyOf(a.seg) {
      CoversSnoc(Arrived(sys, k), Claim(a.seg.content.offset, a.seg.content.length), x);
    }
  }

  /** The parts of a step that do not depend on the handler. */
  lemma HistoryExtends(sys: System, a: Action, next: System)
    requires Shaped(sys) && BlocksFit(sys) && a.who < 2
    requires Shaped(next) && IdOf(next, 0) == IdOf(sys, 0) && IdOf(next, 1) == IdOf(sys, 1)
    requires next.blocks == NextBlocks(sys, a) && next.arrivals == NextArrivals(sys, a)
    ensures Extends(sys, next)
  {
    hide NextBlocks, NextArrivals, BlocksFit, Covers, Arrived;
    forall k | k in sys.blocks ensures k in next.blocks && next.blocks[k] == sys.blocks[k] {
      BlocksExtend(sys, a, k);
    }
    forall k, x: nat | Covers(Arrived(sys, k), x) ensures Covers(Arrived(next, k), x) {
      ArrivalsExtend(sys, a, next, k, x);
    }
  }

  lemma TakenArrives(sys: System, next: System, k: Key, taken: seq<Claim>)
    requires Extends(sys, next) && AllArrived(sys, k, taken)
    ensures AllArrived(next, k, taken)
  {
  }

  /** What the live sessions have taken in has still arrived after the step. */
  lemma LiveStaysFit(sys: System, a: Action, next: System)
    requires Shaped(sys) && a.who < 2 && LiveFits(sys) && Extends(sys, next)
    requires next.live == NextLive(sys, a) && next.arrivals == NextArrivals(sys, a)
    ensures LiveFits(next)
  {
    hide Extends, Covers, AllArrived;
    forall k | k in next.live ensures AllArrived(next, k, next.live[k]) {
      if TakesData(sys, a) && k == KeyOf(a.seg) {
        TakenGrows(sys, a, next);
      } else {
        TakenArrives(sys, next, k, next.live[k]);
      }
    }
  }

  lemma TakenGrows(sys: System, a: Action, next: System)
    requires Shaped(sys) && a.who < 2 && LiveFits(sys) && TakesData(sys, a) && next.arrivals == NextArrivals(sys, a)
    ensures AllArrived(next, KeyOf(a.seg),
                       TakenBefore(sys, a.who, KeyOf(a.seg)) + [Claim(a.seg.content.offset, a.seg.content.length)])
  {
    var key, c := KeyOf(a.seg), Claim(a.seg.content.offset, a.seg.content.length);
    var before := TakenBefore(sys, a.who, key);
    assert AllArrived(sys, key, before) by {
      if key in sys.live { assert AllArrived(sys, key, sys.live[key]); }
    }
    hide LiveFits;
    forall x: nat | Covers(before + [c], x) ensures Covers(Arrived(next, key), x) {
      CoversSnoc(before, c, x);
      CoversSnoc(Arrived(sys, key), c, x);
    }
  }

  lemma LiveHasArrived(sys: System, k: Key)
    requires LiveFits(sys)
    ensures AllArrived(sys, k, LiveIn(sys.live, k))
  {
  }

  lemma StartFits(sys: System, a: Action, next: System)
    requires Shaped(sys) && a.who < 2 && sys.engines[a.who].config.maxSegmentSize > 0
    requires Inv(sys) && Enabled(sys, a) && a.Start? && Extends(sys, next)
    requires next.blocks == NextBlocks(sys, a)
    requires MarksAgree(next, a.who, Now(sys), StartSession(sys.engines[a.who], a.data, a.reliable).0.engine.sessions)
    ensures OutcomeFits(next, a.who, StartSession(sys.engines[a.who], a.data, a.reliable).0, Now(sys))
  {
    hide StartSession, OutcomeFits, Inv, Extends, MarksAgree, NextBlocks;
    if Full(sys.engines[a.who]) {
      RefusedStartFits(sys, a, next);
    } else {
      AcceptedStartFits(sys, a, next);
    }
  }

  lemma RefusedStartFits(sys: System, a: Action, next: System)
    requires Shaped(sys) && a.who < 2 && a.Start? && sys.engines[a.who].config.maxSegmentSize > 0
    requires Inv(sys) && Extends(sys, next) && Full(sys.engines[a.who])
    requires MarksAgree(next, a.who, Now(sys), StartSession(sys.engines[a.who], a.data, a.reliable).0.engine.sessions)
    ensures OutcomeFits(next, a.who, StartSession(sys.engines[a.who], a.data, a.reliable).0, Now(sys))
  {
    hide StartSession, Inv, Extends, MarksAgree, AllFit, StoredFit;
    PartsOfExtends(sys, next);
    NothingLogged(IdOf(next, a.who), Now(sys));
    FullStartsNothing(sys.engines[a.who], a.data, a.reliable);
    NothingSentFits(next, a.who);
    SameSessionsStillFit(sys, a.who, next);
  }

  lemma AcceptedStartFits(sys: System, a: Action, next: System)
    requires Shaped(sys) && a.who < 2 && a.Start? && sys.engines[a.who].config.maxSegmentSize > 0
    requires Inv(sys) && Extends(sys, next) && !Full(sys.engines[a.who])
    requires next.blocks == NextBlocks(sys, a)
    requires MarksAgree(next, a.who, Now(sys), StartSession(sys.engines[a.who], a.data, a.reliable).0.engine.sessions)
    ensures OutcomeFits(next, a.who, StartSession(sys.engines[a.who], a.data, a.reliable).0, Now(sys))
  {
    hide SegmentBlock, StartSession, AllFit, StoredFit, Inv, Extends, MarksAgree, NextBlocks, Balance, AfterSegmentation,
      NewOriginator;
    PartsOfExtends(sys, next);
    NothingLogged(IdOf(next, a.who), Now(sys));
    StartOutcome(sys.engines[a.who], a.data, a.reliable);
    StartedSegmentsFit(sys, a, next);
    StartedSessionsFit(sys, a, next, StartSession(sys.engines[a.who], a.data, a.reliable).0.engine.sessions);
  }

  lemma StartedSegmentsFit(sys: System, a: Action, next: System)
    requires Shaped(sys) && a.who < 2 && a.Start? && Shaped(next) && IdOf(next, a.who) == IdOf(sys, a.who)
    requires sys.engines[a.who].config.maxSegmentSize > 0 && !Full(sys.engines[a.who])
    requires next.blocks == NextBlocks(sys, a)
    ensures AllFit(next, a.who, SegmentBlock(NewOriginator(sys.engines[a.who], a.data, a.reliable),
                                             sys.engines[a.who].config.maxSegmentSize))
  {
    hide SegmentBlock, SegmentFits;
    var e := sys.engines[a.who];
    var s := NewOriginator(e, a.data, a.reliable);
    forall seg | seg in SegmentBlock(s, e.config.maxSegmentSize) ensures SegmentFits(next, a.who, seg) {
      BlockSegmentsFit(next, a.who, s, e.config.maxSegmentSize, seg);
    }
  }

  lemma NothingSentFits(next: System, i: nat)
    requires Shaped(next) && i < 2
    ensures AllFit(next, i, [])
  {
  }

  lemma FullStartsNothing(e: Engine, data: seq<byte>, reliable: bool)
    requires e.config.maxSegmentSize > 0 && Full(e)
    ensures StartSession(e, data, reliable).0 == Outcome(e, [], [])
  {
  }

  lemma StartedSessionsFit(sys: System, a: Action, next: System, after: map<Key, Session>)
    requires Inv(sys) && a.who < 2 && a.Start? && Extends(sys, next) && !Full(sys.engines[a.who])
    requires next.blocks == NextBlocks(sys, a) && MarksAgree(next, a.who, Now(sys), after)
    requires var e := sys.engines[a.who];
             var key := Key(e.config.localEngineId, e.sessionCounter + 1);
             after == if a.reliable then e.sessions[key := AfterSegmentation(NewOriginator(e, a.data, a.reliable))] else e.sessions - {key}
    ensures StoredFit(next, a.who, after)
  {
    hide EngineOk, SentFits, BlocksFit, EobFits, LogFits;
    var e := sys.engines[a.who];
    var key := Key(e.config.localEngineId, e.sessionCounter + 1);
    forall k | k in after ensures SessionFits(next, a.who, k, after[k]) {
      if k != key {
        assert SessionFits(sys, a.who, k, e.sessions[k]);
        SessionStillFits(sys, next, a.who, k, e.sessions[k]);
      }
    }
  }

  lemma RefusedChangesNothing(sys: System, a: Action)
    requires Inv(sys) && Enabled(sys, a) && a.Deliver?
    requires !Accepts(sys.engines[a.who], KeyOf(a.seg))
    ensures Marked(sys, a) == Now(sys)
  {
  }

  lemma SameSessionsStillFit(sys: System, i: nat, next: System)
    requires Inv(sys) && i < 2 && Extends(sys, next)
    requires MarksAgree(next, i, Now(sys), sys.engines[i].sessions)
    ensures StoredFit(next, i, sys.engines[i].sessions)
  {
    hide SessionFits;
    forall k | k in sys.engines[i].sessions ensures SessionFits(next, i, k, sys.engines[i].sessions[k]) {
      assert SessionFits(sys, i, k, sys.engines[i].sessions[k]);
      SessionStillFits(sys, next, i, k, sys.engines[i].sessions[k]);
    }
  }

  lemma DataStepFits(sys: System, a: Action, next: System)
    requires Shaped(next)
    requires Inv(sys) && Enabled(sys, a) && a.Deliver? && IsData(a.seg.segmentType) && Extends(sys, next)
    requires a.seg.content.DataContent? && a.seg.content.length == |a.seg.content.data|
    requires next.arrivals == NextArrivals(sys, a) && next.live == NextLive(sys, a)
    requires MarksAgree(next, a.who, Marked(sys, a), ReceiveData(sys.engines[a.who], a.seg).engine.sessions)
    ensures OutcomeFits(next, a.who, ReceiveData(sys.engines[a.who], a.seg), Marked(sys, a))
  {
    hide ReceiveData, Inv, Extends, MarksAgree, Marked, NextArrivals, StoredFit, EntriesFit, Logged, SegmentFits,
      Absorb, ReceiverFor, Canonical, Within, ReceiverFits, DataFits, Balance, EngineOk, SessionsFit, SentFits;
    PartsOfInv(sys, a.who);
    PartsOfExtends(sys, next);
    var e := sys.engines[a.who];
    var o := ReceiveData(e, a.seg);
    if !Accepts(e, KeyOf(a.seg)) {
      RefusedStepFits(sys, a, next);
    } else {
      AcceptedFits(sys, a.who, a.seg);
      DataOutcome(e, a.seg);
      AbsorbedSessionsFit(sys, a, next, o.engine);
      DeliveredEntriesFit(sys, a, next);
      if AsksForReport(a.seg) {
        ReportOfAbsorbedFits(sys, a, next);
      }
      assert AllFit(next, a.who, o.sent);
    }
  }

  lemma RefusedStepFits(sys: System, a: Action, next: System)
    requires Inv(sys) && Enabled(sys, a) && a.Deliver? && IsData(a.seg.segmentType) && Extends(sys, next)
    requires a.seg.content.DataContent? && a.seg.content.length == |a.seg.content.data|
    requires !Accepts(sys.engines[a.who], KeyOf(a.seg))
    requires MarksAgree(next, a.who, Marked(sys, a), ReceiveData(sys.engines[a.who], a.seg).engine.sessions)
    ensures OutcomeFits(next, a.who, ReceiveData(sys.engines[a.who], a.seg), Marked(sys, a))
  {
    var o := ReceiveData(sys.engines[a.who], a.seg);
    RefusedChangesNothing(sys, a);
    assert o.engine == sys.engines[a.who] && o.sent == [] && o.events == [];
    hide ReceiveData, Inv, Extends, MarksAgree, Marked, Logged;
    NothingLogged(IdOf(next, a.who), Marked(sys, a));
    SameSessionsStillFit(sys, a.who, next);
  }

  lemma DeliveredEntriesFit(sys: System, a: Action, next: System)
    requires Inv(sys) && Enabled(sys, a) && a.Deliver? && IsData(a.seg.segmentType) && Extends(sys, next)
    requires a.seg.content.DataContent? && a.seg.content.length == |a.seg.content.data|
    requires Accepts(sys.engines[a.who], KeyOf(a.seg)) && next.arrivals == NextArrivals(sys, a) && next.live == NextLive(sys, a)
    ensures EntriesFit(next, Logged(IdOf(next, a.who), Marked(sys, a), ReceiveData(sys.engines[a.who], a.seg).events))
  {
    hide ReceiveData, Inv, Extends, NextArrivals, EntryFits, Logged, Absorb, ReceiverFor,
      Canonical, Within, ReceiverFits, DataFits, Balance, EngineOk, SessionsFit, SentFits;
    PartsOfInv(sys, a.who);
    PartsOfExtends(sys, next);
    var e := sys.engines[a.who];
    var events := ReceiveData(e, a.seg).events;
    AcceptedFits(sys, a.who, a.seg);
    DataOutcome(e, a.seg);
    assert HasEob(a.seg.segmentType) ==> KeyOf(a.seg) in Marked(sys, a).eob;
    NothingLogged(IdOf(next, a.who), Marked(sys, a));
    if IsGreen(a.seg.segmentType) && HasEob(a.seg.segmentType) {
      GreenDeliveryFits(sys, a, next);
      OneEvent(IdOf(next, a.who), Marked(sys, a), events[0]);
      assert events == [events[0]];
    }
  }

  /** The absorbed session against the history after the step. */
  lemma AbsorbedFits(sys: System, a: Action, next: System)
    requires Inv(sys) && Enabled(sys, a) && a.Deliver? && IsData(a.seg.segmentType) && Extends(sys, next)
    requires a.seg.content.DataContent? && Accepts(sys.engines[a.who], KeyOf(a.seg))
    requires next.arrivals == NextArrivals(sys, a) && next.live == NextLive(sys, a)
    ensures KeyOf(a.seg) in sys.blocks && KeyOf(a.seg).engineId == IdOf(sys, 1 - a.who)
    ensures ReceiverFits(sys.blocks[KeyOf(a.seg)], Absorb(ReceiverFor(sys.engines[a.who], a.seg), a.seg),
                         LiveIn(next.live, KeyOf(a.seg)), KeyOf(a.seg) in Marked(sys, a).eob)
  {
    hide Absorb, ReceiverFits, EngineOk, SessionsFit, SentFits, BlocksFit, EobFits, LogFits, ReceiverFor;
    var key := KeyOf(a.seg);
    AcceptedFits(sys, a.who, a.seg);
    AbsorbFits(sys.blocks[key], ReceiverFor(sys.engines[a.who], a.seg), a.seg, TakenBefore(sys, a.who, key), key in sys.eob);
  }

  lemma AbsorbedSessionsFit(sys: System, a: Action, next: System, after: Engine)
    requires Inv(sys) && Enabled(sys, a) && a.Deliver? && IsData(a.seg.segmentType) && Extends(sys, next)
    requires a.seg.content.DataContent? && Accepts(sys.engines[a.who], KeyOf(a.seg))
    requires next.arrivals == NextArrivals(sys, a) && next.live == NextLive(sys, a)
    requires var key := KeyOf(a.seg);
             var s1 := Absorb(ReceiverFor(sys.engines[a.who], a.seg), a.seg);
             || after.sessions == sys.engines[a.who].sessions - {key}
             || after.sessions == sys.engines[a.who].sessions[key := s1]
             || after.sessions == sys.engines[a.who].sessions[key := AfterReport(s1)]
    requires MarksAgree(next, a.who, Marked(sys, a), after.sessions)
    ensures StoredFit(next, a.who, after.sessions)
  {
    hide Absorb, EngineOk, SentFits, BlocksFit, EobFits, LogFits, NextArrivals;
    var e, key := sys.engines[a.who], KeyOf(a.seg);
    AbsorbedFits(sys, a, next);
    forall k | k in after.sessions ensures SessionFits(next, a.who, k, after.sessions[k]) {
      if k != key {
        assert SessionFits(sys, a.who, k, e.sessions[k]);
        SessionStillFits(sys, next, a.who, k, e.sessions[k]);
      }
    }
  }

  lemma ReportOfAbsorbedFits(sys: System, a: Action, next: System)
    requires Inv(sys) && Enabled(sys, a) && a.Deliver? && IsData(a.seg.segmentType) && Extends(sys, next)
    requires a.seg.content.DataContent? && Accepts(sys.engines[a.who], KeyOf(a.seg))
    requires next.arrivals == NextArrivals(sys, a) && next.live == NextLive(sys, a) && AsksForReport(a.seg)
    ensures var c := a.seg.content;
            SegmentFits(next, a.who, ReportFor(Absorb(ReceiverFor(sys.engines[a.who], a.seg), a.seg),
                                               c.checkpointSerial.value, c.offset + c.length))
  {
    hide Absorb, Inv, NextArrivals, NextLive, ReceiverFor, LiveFits;
    PartsOfInv(sys, a.who);
    LiveStaysFit(sys, a, next);
    LiveHasArrived(next, KeyOf(a.seg));
    AbsorbedFits(sys, a, next);
    AcceptedFits(sys, a.who, a.seg);
    AbsorbKeepsIdentity(ReceiverFor(sys.engines[a.who], a.seg), a.seg);
  }

  lemma GreenDeliveryFits(sys: System, a: Action, next: System)
    requires Inv(sys) && Enabled(sys, a) && a.Deliver? && IsData(a.seg.segmentType) && Extends(sys, next)
    requires a.seg.content.DataContent? && a.seg.content.length == |a.seg.content.data|
    requires Accepts(sys.engines[a.who], KeyOf(a.seg))
    requires next.arrivals == NextArrivals(sys, a) && next.live == NextLive(sys, a) && HasEob(a.seg.segmentType)
    ensures var s1 := Absorb(ReceiverFor(sys.engines[a.who], a.seg), a.seg);
            && s1.totalDataLength <= |s1.clientData|
            && EntryFits(next, DeliveryLogged(KeyOf(a.seg), false, true, s1.clientData[..s1.totalDataLength], s1.ranges,
                                              LiveIn(next.live, KeyOf(a.seg))))
  {
    hide Absorb, Inv, NextArrivals, NextLive, ReceiverFor, LiveFits, AllArrived, SessionsFit, SentFits, EngineOk;
    PartsOfInv(sys, a.who);
    LiveStaysFit(sys, a, next);
    LiveHasArrived(next, KeyOf(a.seg));
    AbsorbedFits(sys, a, next);
    AcceptedFits(sys, a.who, a.seg);
    AbsorbKeepsRanges(ReceiverFor(sys.engines[a.who], a.seg), a.seg);
  }

  /** The session an accepted data segment goes to, before it is absorbed. */
  lemma AcceptedFits(sys: System, i: nat, seg: Segment)
    requires Inv(sys) && i < 2 && seg in sys.sent[1 - i] && IsData(seg.segmentType)
    requires seg.content.DataContent?
    ensures KeyOf(seg) in sys.blocks && KeyOf(seg).engineId == IdOf(sys, 1 - i)
    ensures var s0 := ReceiverFor(sys.engines[i], seg);
            && s0.state == ACTIVE && Canonical(s0.ranges) && Within(s0.ranges, 0, |s0.clientData|)
            && s0.totalDataLength <= |s0.clientData|
            && s0.engineId == seg.engineId && s0.sessionNumber == seg.sessionNumber
            && ReceiverFits(sys.blocks[KeyOf(seg)], s0, TakenBefore(sys, i, KeyOf(seg)), KeyOf(seg) in sys.eob)
            && DataFits(sys.blocks[KeyOf(seg)], seg)
  {
    hide Inv, Covers;
    PartsOfInv(sys, i);
    var e, key := sys.engines[i], KeyOf(seg);
    FlightFits(sys, 1 - i, seg);
    if key in e.sessions {
      StoredFits(sys, i, key);
    } else {
      FreshHasNoEob(sys, i, key);
      NewReceiverFits(sys.blocks[key], seg);
    }
  }

  // ----- the other steps -----

  /** Whatever was sent stays sent, and cancel traffic and acknowledgments carry no data. */
  lemma ControlFits(sys: System, i: nat, seg: Segment)
    requires Shaped(sys) && i < 2 && WireReady(seg)
    requires !IsData(seg.segmentType) && seg.segmentType != REPORT_SEGMENT
    ensures SegmentFits(sys, i, seg)
  {
  }

  /** A handler that removes or replaces at most one session, keeping what it holds of its block. */
  ghost predicate SimilarSessions(before: map<Key, Session>, after: map<Key, Session>) {
    forall k :: k in after ==> k in before && Similar(before[k], after[k])
  }

  ghost predicate Similar(s: Session, t: Session) {
    s.clientData == t.clientData && s.ranges == t.ranges && s.totalDataLength == t.totalDataLength && s.isRed == t.isRed
  }

  lemma SimilarSessionsFit(sys: System, i: nat, next: System, after: map<Key, Session>)
    requires Inv(sys) && i < 2 && Extends(sys, next)
    requires SimilarSessions(sys.engines[i].sessions, after)
    requires MarksAgree(next, i, Now(sys), after)
    ensures StoredFit(next, i, after)
  {
    hide Inv, ReceiverFits, SessionOk;
    forall k | k in after ensures SessionFits(next, i, k, after[k]) {
      StoredFits(sys, i, k);
      SimilarFits(sys, i, next, k, after[k]);
    }
  }

  lemma SimilarFits(sys: System, i: nat, next: System, k: Key, t: Session)
    requires Shaped(sys) && i < 2 && Extends(sys, next) && k in sys.engines[i].sessions
    requires SessionFits(sys, i, k, sys.engines[i].sessions[k]) && Similar(sys.engines[i].sessions[k], t)
    requires k.engineId != IdOf(next, i) ==> (k in next.eob <==> k in sys.eob) && LiveIn(next.live, k) == LiveIn(sys.live, k)
    ensures SessionFits(next, i, k, t)
  {
    hide ReceiverFits, Covers, LiveIn;
    SessionStillFits(sys, next, i, k, sys.engines[i].sessions[k]);
    if k.engineId != IdOf(next, i) {
      ReceiverFitsSimilar(next.blocks[k], sys.engines[i].sessions[k], t, LiveIn(next.live, k), k in next.eob);
    }
  }

  lemma ReceiverFitsSimilar(b: Block, s: Session, t: Session, taken: seq<Claim>, sawEob: bool)
    requires ReceiverFits(b, s, taken, sawEob) && Similar(s, t)
    ensures ReceiverFits(b, t, taken, sawEob)
  {
  }

  lemma ReportStepFits(sys: System, i: nat, seg: Segment, next: System)
    requires Inv(sys) && i < 2 && seg in sys.sent[1 - i] && seg.segmentType == REPORT_SEGMENT
    requires Extends(sys, next) && Receivable(sys.engines[i], seg)
    requires MarksAgree(next, i, Now(sys), ReceiveReport(sys.engines[i], seg).engine.sessions)
    requires sys.engines[i].config.maxSegmentSize > 0
    ensures OutcomeFits(next, i, ReceiveReport(sys.engines[i], seg), Now(sys))
  {
    hide ReceiveReport, Inv, Extends, MarksAgree, StoredFit, AllFit, EntriesFit, Logged, SimilarSessions, EngineOk,
      SessionsFit, SentFits;
    PartsOfInv(sys, i);
    PartsOfExtends(sys, next);
    ReportOutcomeSimilar(sys.engines[i], seg);
    ReportOutcomeSent(sys, i, seg, next);
    ReportOutcomeEvents(sys, i, seg, next);
    SimilarSessionsFit(sys, i, next, ReceiveReport(sys.engines[i], seg).engine.sessions);
  }

  lemma ReportOutcomeSimilar(e: Engine, seg: Segment)
    requires EngineOk(e) && Receivable(e, seg) && seg.segmentType == REPORT_SEGMENT
    ensures SimilarSessions(e.sessions, ReceiveReport(e, seg).engine.sessions)
  {
    hide Gaps, CutAll, RetransmitSegments, CountSentAll, SessionOk;
    GapsCoverTheRest(seg.content.claims, seg.content.lowerBound, seg.content.upperBound);
    var key := Key(e.config.localEngineId, seg.sessionNumber);
    if key in e.sessions {
      assert SessionOk(e, key, e.sessions[key]);
    }
  }

  lemma ReportOutcomeSent(sys: System, i: nat, seg: Segment, next: System)
    requires Inv(sys) && i < 2 && seg in sys.sent[1 - i] && seg.segmentType == REPORT_SEGMENT
    requires Extends(sys, next) && Receivable(sys.engines[i], seg)
    requires sys.engines[i].config.maxSegmentSize > 0
    ensures AllFit(next, i, ReceiveReport(sys.engines[i], seg).sent)
  {
    hide SegmentFits, Inv, Extends, ReceiveReport, RetransmitSegments, EngineOk, SentFits;
    PartsOfInv(sys, i);
    PartsOfExtends(sys, next);
    var e, rs := sys.engines[i], seg.content;
    ReportSends(e, seg);
    var key := Key(e.config.localEngineId, seg.sessionNumber);
    var gaps := Gaps(rs.claims, rs.lowerBound, rs.upperBound);
    forall t | t in ReceiveReport(e, seg).sent ensures SegmentFits(next, i, t) {
      if IsControl(t) {
        ControlFits(next, i, t);
      } else {
        OriginatorBlock(sys, i, key, next);
        RetransmittedFit(next, i, BumpRetransmissions(e.sessions[key]), gaps, e.config.maxSegmentSize, t);
      }
    }
  }

  predicate IsControl(t: Segment) {
    WireReady(t) && !IsData(t.segmentType) && t.segmentType != REPORT_SEGMENT
  }

  /** A report is answered with control segments and, at most, one selective retransmission. */
  lemma ReportSends(e: Engine, seg: Segment)
    requires EngineOk(e) && Receivable(e, seg) && seg.segmentType == REPORT_SEGMENT
    ensures var key := Key(e.config.localEngineId, seg.sessionNumber);
            var gaps := Gaps(seg.content.claims, seg.content.lowerBound, seg.content.upperBound);
            forall t :: t in ReceiveReport(e, seg).sent ==>
              || IsControl(t)
              || (&& key in e.sessions && Within(gaps, 0, |e.sessions[key].clientData|) && e.sessions[key].role == ORIGINATOR
                  && t in RetransmitSegments(BumpRetransmissions(e.sessions[key]), gaps, e.config.maxSegmentSize))
  {
    hide Gaps, CutAll, RetransmitSegments, CountSentAll, SessionOk;
    GapsCoverTheRest(seg.content.claims, seg.content.lowerBound, seg.content.upperBound);
    var key := Key(e.config.localEngineId, seg.sessionNumber);
    if key in e.sessions { SessionNumberOf(e, key); }
  }

  lemma OriginatorBlock(sys: System, i: nat, key: Key, next: System)
    requires Inv(sys) && i < 2 && Extends(sys, next) && key in sys.engines[i].sessions
    requires key.engineId == IdOf(sys, i)
    ensures key in next.blocks && next.blocks[key].red && next.blocks[key].data == sys.engines[i].sessions[key].clientData
    ensures sys.engines[i].sessions[key].engineId == key.engineId
    ensures sys.engines[i].sessions[key].sessionNumber == key.sessionNumber
  {
    hide SentFits, BlocksFit, EobFits, LogFits;
    assert SessionOk(sys.engines[i], key, sys.engines[i].sessions[key]);
    assert SessionFits(sys, i, key, sys.engines[i].sessions[key]);
  }

  lemma ReportOutcomeEvents(sys: System, i: nat, seg: Segment, next: System)
    requires Inv(sys) && i < 2 && seg in sys.sent[1 - i] && seg.segmentType == REPORT_SEGMENT
    requires Extends(sys, next) && Receivable(sys.engines[i], seg)
    requires sys.engines[i].config.maxSegmentSize > 0
    ensures EntriesFit(next, Logged(IdOf(next, i), Now(sys), ReceiveReport(sys.engines[i], seg).events))
  {
    hide ReceiveReport, Inv, Extends, Logged, FullyReceived, EntryFits, EngineOk, SessionsFit, SentFits;
    PartsOfInv(sys, i);
    PartsOfExtends(sys, next);
    ReportEvents(sys.engines[i], seg);
    var events := ReceiveReport(sys.engines[i], seg).events;
    NothingLogged(IdOf(next, i), Now(sys));
    if events != [] {
      OneEvent(IdOf(next, i), Now(sys), events[0]);
      assert events == [events[0]];
      if events[0].SessionComplete? {
        CompletionFits(sys, i, seg, next);
      }
    }
  }

  /** A report fires at most one callback, and completion only when its claims say so. */
  lemma ReportEvents(e: Engine, seg: Segment)
    requires EngineOk(e) && Receivable(e, seg) && seg.segmentType == REPORT_SEGMENT
    ensures var events := ReceiveReport(e, seg).events;
            var key := Key(e.config.localEngineId, seg.sessionNumber);
            || events == []
            || (|events| == 1 && events[0].SessionFailed?)
            || (events == [SessionComplete(seg.sessionNumber)] && key in e.sessions
                && FullyReceived(e.sessions[key], seg.content.claims))
  {
    hide Gaps, CutAll, RetransmitSegments, CountSentAll, SessionOk;
    var key := Key(e.config.localEngineId, seg.sessionNumber);
    if key in e.sessions { assert SessionOk(e, key, e.sessions[key]); SessionNumberOf(e, key); }
  }

  lemma SessionNumberOf(e: Engine, key: Key)
    requires EngineOk(e) && key in e.sessions
    ensures e.sessions[key].sessionNumber == key.sessionNumber && e.sessions[key].engineId == key.engineId
    ensures e.sessions[key].state == ACTIVE
    ensures e.sessions[key].role == ORIGINATOR <==> key.engineId == e.config.localEngineId
  {
    assert SessionOk(e, key, e.sessions[key]);
  }

  /** Completion soundness at the step that signals it. */
  lemma CompletionFits(sys: System, i: nat, seg: Segment, next: System)
    requires Inv(sys) && i < 2 && seg in sys.sent[1 - i] && seg.segmentType == REPORT_SEGMENT
    requires Extends(sys, next) && seg.content.ReportContent?
    requires var key := Key(IdOf(sys, i), seg.sessionNumber);
             key in sys.engines[i].sessions && FullyReceived(sys.engines[i].sessions[key], seg.content.claims)
    ensures EntryFits(next, CompletionLogged(Key(IdOf(next, i), seg.sessionNumber)))
  {
    hide Inv, Covers, ReceiverFits, DataFits;
    var e, key := sys.engines[i], Key(IdOf(sys, i), seg.sessionNumber);
    FlightFits(sys, 1 - i, seg);
    StoredFits(sys, i, key);
    var b, claims := sys.blocks[key], seg.content.claims;
    forall x: nat | x < |b.data| ensures Covers(Arrived(next, key), x) {
      FirstClaimCovers(claims, x);
    }
  }

  lemma FirstClaimCovers(claims: seq<Claim>, x: nat)
    requires |claims| > 0 && claims[0].offset == 0 && x < claims[0].length
    ensures Covers(claims, x)
  {
    assert claims[0].Has(x);
  }

  lemma AckStepFits(sys: System, i: nat, seg: Segment, next: System)
    requires Inv(sys) && i < 2 && seg.segmentType == REPORT_ACK && seg.content.AckContent?
    requires Extends(sys, next) && Receivable(sys.engines[i], seg)
    requires MarksAgree(next, i, Now(sys), LtpEngineSpec.ReceiveReportAck(sys.engines[i], seg).engine.sessions)
    ensures OutcomeFits(next, i, LtpEngineSpec.ReceiveReportAck(sys.engines[i], seg), Now(sys))
  {
    hide SessionFits, EntryFits, SegmentFits, SentFits, BlocksFit, EobFits, LogFits, Logged, SessionOk;
    var e := sys.engines[i];
    var o := LtpEngineSpec.ReceiveReportAck(e, seg);
    NothingLogged(IdOf(next, i), Now(sys));
    SimilarSessionsFit(sys, i, next, o.engine.sessions);
    if o.events != [] {
      OneEvent(IdOf(next, i), Now(sys), o.events[0]);
      RedDeliveryFits(sys, i, KeyOf(seg), next);
    }
  }

  /** A red delivery after EOB is exactly the block; before EOB it is empty. */
  lemma RedDeliveryFits(sys: System, i: nat, key: Key, next: System)
    requires Inv(sys) && i < 2 && Extends(sys, next) && key in sys.engines[i].sessions
    requires var s := sys.engines[i].sessions[key]; s.role == RECEIVER && IsComplete(s.ranges, s.totalDataLength)
    ensures var s := sys.engines[i].sessions[key];
            && s.totalDataLength <= |s.clientData|
            && EntryFits(next, DeliveryLogged(key, true, key in sys.eob, s.clientData[..s.totalDataLength], s.ranges,
                                              LiveIn(sys.live, key)))
  {
    hide Inv, LiveFits, AllArrived;
    PartsOfInv(sys, i);
    var e := sys.engines[i];
    var s := e.sessions[key];
    StoredFits(sys, i, key);
    LiveHasArrived(sys, key);
    TakenArrives(sys, next, key, LiveIn(sys.live, key));
    CompleteMeansCovered(s.ranges, s.totalDataLength);
    if key in sys.eob {
      var b := sys.blocks[key];
      assert s.clientData[..s.totalDataLength] == b.data;
    }
  }

  lemma CancelStepFits(sys: System, i: nat, o: Outcome, next: System)
    requires Inv(sys) && i < 2 && Extends(sys, next)
    requires SimilarSessions(sys.engines[i].sessions, o.engine.sessions)
    requires forall seg :: seg in o.sent ==> IsControl(seg)
    requires o.events == [] || (|o.events| == 1 && o.events[0].SessionFailed?)
    requires MarksAgree(next, i, Now(sys), o.engine.sessions)
    ensures OutcomeFits(next, i, o, Now(sys))
  {
    hide SessionFits, EntryFits, SegmentFits, Logged;
    SimilarSessionsFit(sys, i, next, o.engine.sessions);
    NothingLogged(IdOf(next, i), Now(sys));
    if o.events != [] {
      OneEvent(IdOf(next, i), Now(sys), o.events[0]);
      assert o.events == [o.events[0]];
    }
    forall seg | seg in o.sent ensures SegmentFits(next, i, seg) {
      ControlFits(next, i, seg);
    }
  }

  lemma TimerStepFits(sys: System, i: nat, event: TimerEvent, next: System)
    requires Inv(sys) && i < 2 && Extends(sys, next)
    requires sys.engines[i].config.maxSegmentSize > 0
    requires MarksAgree(next, i, Now(sys), TimerExpired(sys.engines[i], event).engine.sessions)
    ensures OutcomeFits(next, i, TimerExpired(sys.engines[i], event), Now(sys))
  {
    hide TimerExpired, Inv, Extends, MarksAgree, StoredFit, AllFit, EntryFits, Logged, SimilarSessions, EngineOk,
      SessionsFit, SentFits;
    PartsOfInv(sys, i);
    PartsOfExtends(sys, next);
    TimerOutcomeSimilar(sys.engines[i], event);
    TimerOutcomeSent(sys, i, event, next);
    var o := TimerExpired(sys.engines[i], event);
    SimilarSessionsFit(sys, i, next, o.engine.sessions);
    NothingLogged(IdOf(next, i), Now(sys));
    if o.events != [] {
      OneEvent(IdOf(next, i), Now(sys), o.events[0]);
      assert o.events == [o.events[0]];
    }
  }

  lemma TimerOutcomeSimilar(e: Engine, event: TimerEvent)
    requires EngineOk(e)
    ensures var o := TimerExpired(e, event);
            && SimilarSessions(e.sessions, o.engine.sessions)
            && (o.events == [] || (|o.events| == 1 && o.events[0].SessionFailed?))
  {
    hide SegmentBlock, CountSentAll, SessionOk;
    var key := Key(e.config.localEngineId, event.sessionNumber);
    if key in e.sessions { assert SessionOk(e, key, e.sessions[key]); }
  }

  lemma TimerOutcomeSent(sys: System, i: nat, event: TimerEvent, next: System)
    requires Inv(sys) && i < 2 && Extends(sys, next)
    requires sys.engines[i].config.maxSegmentSize > 0
    ensures AllFit(next, i, TimerExpired(sys.engines[i], event).sent)
  {
    var e := sys.engines[i];
    hide Inv, EngineOk, SessionsFit, SentFits, Extends, CheckpointExpired, ReportExpired;
    PartsOfInv(sys, i);
    PartsOfExtends(sys, next);
    match event.timerType
    case CHECKPOINT_TIMER => CheckpointOutcomeSent(sys, i, event.sessionNumber, next);
    case REPORT_TIMER => ReportTimerOutcomeSent(sys, i, Key(event.engineId, event.sessionNumber), event.serialNumber, next);
    case CANCEL_TIMER =>
  }

  lemma CheckpointOutcomeSent(sys: System, i: nat, number: nat, next: System)
    requires Shaped(sys) && i < 2 && EngineOk(sys.engines[i]) && SessionsFit(sys, i) && Extends(sys, next)
    requires sys.engines[i].config.maxSegmentSize > 0
    ensures AllFit(next, i, CheckpointExpired(sys.engines[i], number).sent)
  {
    hide SegmentBlock, CountSentAll, SegmentFits;
    var e := sys.engines[i];
    var key := Key(e.config.localEngineId, number);
    var sent := CheckpointExpired(e, number).sent;
    if key in e.sessions {
      var s := e.sessions[key];
      assert SessionOk(e, key, s);
      assert SessionFits(sys, i, key, s);
      var bumped := BumpRetransmissions(s);
      forall t | t in sent ensures SegmentFits(next, i, t) {
        if bumped.retransmissionCount > e.config.maxRetransmissions {
          ControlFits(next, i, t);
        } else {
          BlockSegmentsFit(next, i, bumped, e.config.maxSegmentSize, t);
        }
      }
    }
  }

  lemma ReportTimerOutcomeSent(sys: System, i: nat, key: Key, serial: nat, next: System)
    requires Shaped(sys) && i < 2 && EngineOk(sys.engines[i]) && SessionsFit(sys, i) && LiveFits(sys) && Extends(sys, next)
    ensures AllFit(next, i, ReportExpired(sys.engines[i], key, serial).sent)
  {
    hide SegmentFits, SessionOk, ReceiverFits, EngineOk, SessionsFit, Extends, ReportFor, CountSent;
    PartsOfExtends(sys, next);
    var e := sys.engines[i];
    if key in e.sessions && e.sessions[key].state == ACTIVE && e.sessions[key].role == RECEIVER {
      if e.sessions[key].totalDataLength > 0 {
        ExpiredReportFits(sys, i, key, serial, next);
      }
    }
  }

  lemma ExpiredReportFits(sys: System, i: nat, key: Key, serial: nat, next: System)
    requires Shaped(sys) && i < 2 && EngineOk(sys.engines[i]) && SessionsFit(sys, i) && LiveFits(sys) && Extends(sys, next)
    requires key in sys.engines[i].sessions && sys.engines[i].sessions[key].role == RECEIVER
    ensures var s := sys.engines[i].sessions[key];
            SegmentFits(next, i, ReportFor(s, serial, s.totalDataLength))
  {
    var e := sys.engines[i];
    hide DataFits, LiveFits;
    LiveHasArrived(sys, key);
    TakenArrives(sys, next, key, LiveIn(sys.live, key));
    assert SessionOk(e, key, e.sessions[key]);
    assert SessionFits(sys, i, key, e.sessions[key]);
  }
}
