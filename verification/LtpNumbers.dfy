/** Serial numbers: as long as a session is stored, the checkpoints of an originator and the reports of a
    receiver are numbered one after the other, without gaps or repetitions. */
module LtpNumbers {
  import opened Basics
  import opened Bits
  import opened Ranges
  import opened LtpSegment
  import opened LtpEngineSpec
  import opened LtpEngineInvariant
  import opened LtpWire
  import opened LtpSystem
  import opened LtpSystemSafety
  import opened LtpRuns
  import opened LtpTally

  /** The serial number of a checkpoint of the block, or of a report on it. */
  function NumberOf(seg: Segment, key: Key): seq<nat> {
    if KeyOf(seg) != key then []
    else match seg.content
      case DataContent(_, _, _, checkpoint, _, _) => (match checkpoint case Some(n) => [n] case None => [])
      case ReportContent(report, _, _, _, _) => [report]
      case AckContent(_) => []
      case CancelContent(_) => []
  }

  function NumbersOn(segs: seq<Segment>, key: Key): seq<nat> {
    if |segs| == 0 then [] else NumbersOn(segs[..|segs| - 1], key) + NumberOf(segs[|segs| - 1], key)
  }

  /** The last number a session has given. */
  function LastNumber(s: Session): nat {
    if s.role == ORIGINATOR then s.checkpointSerialCounter else s.reportSerialCounter
  }

  /** The numbers after `m`, up to `n`. */
  function Following(m: nat, n: nat): seq<nat>
    requires m <= n
  {
    seq(n - m, j requires 0 <= j => m + 1 + j)
  }

  /** A handler gives a stored session's next number, or none. */
  ghost predicate Numbers(e: Engine, o: Outcome, key: Key) {
    key in e.sessions && key in o.engine.sessions ==>
      var m, n := LastNumber(e.sessions[key]), LastNumber(o.engine.sessions[key]);
      m <= n && NumbersOn(o.sent, key) == Following(m, n)
  }

  // ----- numbers in lists of segments -----

  lemma {:induction false} Unnumbered(segs: seq<Segment>, key: Key)
    requires forall i :: 0 <= i < |segs| ==> NumberOf(segs[i], key) == []
    ensures NumbersOn(segs, key) == []
  {
    if |segs| > 0 {
      Unnumbered(segs[..|segs| - 1], key);
    }
  }

  lemma LastIsNumbered(segs: seq<Segment>, key: Key, number: seq<nat>)
    requires |segs| > 0 && (forall i :: 0 <= i < |segs| - 1 ==> NumberOf(segs[i], key) == [])
    requires NumberOf(segs[|segs| - 1], key) == number
    ensures NumbersOn(segs, key) == number
  {
    hide NumberOf;
    Unnumbered(segs[..|segs| - 1], key);
  }

  lemma {:induction false} NumbersConcat(a: seq<Segment>, c: seq<Segment>, key: Key)
    ensures NumbersOn(a + c, key) == NumbersOn(a, key) + NumbersOn(c, key)
  {
    hide NumberOf;
    if |c| == 0 {
      assert a + c == a;
    } else {
      assert (a + c)[..|a + c| - 1] == a + c[..|c| - 1];
      NumbersConcat(a, c[..|c| - 1], key);
    }
  }

  lemma Following0(m: nat)
    ensures Following(m, m) == [] && Following(m, m + 1) == [m + 1]
  {
  }

  lemma FollowingConcat(l: nat, m: nat, n: nat)
    requires l <= m <= n
    ensures Following(l, m) + Following(m, n) == Following(l, n)
  {
  }

  lemma PieceNumbers(s: Session, pieces: seq<Claim>, t: nat, lastType: nat, serial: Option<nat>, key: Key)
    requires Within(pieces, 0, |s.clientData|) && |pieces| > 0
    ensures NumbersOn(PieceSegments(s, pieces, t, lastType, serial), key)
            == if key == Key(s.engineId, s.sessionNumber) && serial.Some? then [serial.value] else []
  {
    var segs := PieceSegments(s, pieces, t, lastType, serial);
    LastIsNumbered(segs, key, if key == Key(s.engineId, s.sessionNumber) && serial.Some? then [serial.value] else []);
  }

  lemma BlockNumbers(s: Session, maxSeg: nat, key: Key)
    requires maxSeg > 0
    ensures NumbersOn(SegmentBlock(s, maxSeg), key)
            == if key == Key(s.engineId, s.sessionNumber) && s.isRed then [s.checkpointSerialCounter + 1] else []
  {
    hide NumbersOn, PieceSegments, Cut;
    var serial := if s.isRed then Some(s.checkpointSerialCounter + 1) else None;
    var lastType := if s.isRed then RED_DATA_CP_EORP_EOB else GREEN_DATA_EOB;
    if |s.clientData| == 0 {
      OneNumber(DataSegment(s, lastType, Claim(0, 0), serial), key);
    } else {
      CutWithin(0, |s.clientData|, maxSeg);
      PieceNumbers(s, Cut(0, |s.clientData|, maxSeg), if s.isRed then RED_DATA else GREEN_DATA, lastType, serial, key);
    }
  }

  lemma OneNumber(seg: Segment, key: Key)
    ensures NumbersOn([seg], key) == NumberOf(seg, key) && NumbersOn([], key) == []
  {
    assert [seg][..0] == [];
  }

  // ----- the handlers -----

  lemma StartNumbers(e: Engine, data: seq<byte>, reliable: bool, key: Key)
    requires EngineOk(e)
    ensures Numbers(e, StartSession(e, data, reliable).0, key)
  {
    hide SegmentBlock, CountSentAll, SessionOk, NumbersOn, Following;
    if key in e.sessions {
      assert SessionOk(e, key, e.sessions[key]);
      Following0(LastNumber(e.sessions[key]));
      Unnumbered([], key);
      if !Full(e) {
        BlockNumbers(NewOriginator(e, data, reliable), e.config.maxSegmentSize, key);
        NewNumber(e, key);
      }
    }
  }

  lemma NewNumber(e: Engine, key: Key)
    requires EngineOk(e) && key in e.sessions
    ensures key != Key(e.config.localEngineId, e.sessionCounter + 1)
  {
    assert SessionOk(e, key, e.sessions[key]);
  }

  lemma DataNumbers(e: Engine, seg: Segment, key: Key)
    requires EngineOk(e) && FromPeer(e, seg) && IsData(seg.segmentType)
    ensures Numbers(e, ReceiveData(e, seg), key)
  {
    hide Absorb, SessionOk, NumbersOn, Following, Balance;
    if key in e.sessions {
      StoredIsActive(e, key);
      Following0(LastNumber(e.sessions[key]));
      Unnumbered([], key);
      if Accepts(e, KeyOf(seg)) {
        if KeyOf(seg) in e.sessions { StoredIsActive(e, KeyOf(seg)); }
        DataOutcome(e, seg);
        var s0 := ReceiverFor(e, seg);
        var s1 := Absorb(s0, seg);
        AbsorbKeepsCounter(s0, seg);
        if AsksForReport(seg) { OneNumber(ReportsSent(s1, seg)[0], key); }
        hide ReceiveData;
      }
    }
  }

  lemma AbsorbKeepsCounter(s: Session, seg: Segment)
    requires seg.content.DataContent?
    ensures var s1 := Absorb(s, seg);
            && s1.reportSerialCounter == s.reportSerialCounter && s1.role == s.role
            && s1.engineId == s.engineId && s1.sessionNumber == s.sessionNumber
  {
  }

  lemma ReportNumbers(e: Engine, seg: Segment, key: Key)
    requires EngineOk(e) && Receivable(e, seg) && seg.segmentType == REPORT_SEGMENT
    ensures Numbers(e, ReceiveReport(e, seg), key)
  {
    hide Gaps, CutAll, CountSentAll, SessionOk, NumbersOn, Following, PieceSegments;
    var own := Key(e.config.localEngineId, seg.sessionNumber);
    if key in e.sessions {
      StoredIsActive(e, key);
      Following0(LastNumber(e.sessions[key]));
      var ack := AckFor(seg.engineId, seg.sessionNumber, seg.content.reportNumber);
      OneNumber(ack, key);
      if own in e.sessions {
        StoredIsActive(e, own);
        var s := BumpRetransmissions(e.sessions[own]);
        GapsCoverTheRest(seg.content.claims, seg.content.lowerBound, seg.content.upperBound);
        var gaps := Gaps(seg.content.claims, seg.content.lowerBound, seg.content.upperBound);
        var pieces := CutAll(gaps, e.config.maxSegmentSize);
        CutAllWithin(gaps, e.config.maxSegmentSize, |s.clientData|);
        var again := RetransmitSegments(s, gaps, e.config.maxSegmentSize);
        if |pieces| > 0 {
          PieceNumbers(s, pieces, RED_DATA, RED_DATA_CP, Some(s.checkpointSerialCounter + 1), key);
        } else {
          Unnumbered(again, key);
        }
        NumbersConcat([ack], again, key);
        var cancel := MakeSegment(CANCEL_BY_SENDER, own.engineId, own.sessionNumber, CancelContent(1));
        OneNumber(cancel, key);
        NumbersConcat([ack], [cancel], key);
      }
    }
  }

  lemma TimerNumbers(e: Engine, event: TimerEvent, key: Key)
    requires EngineOk(e)
    ensures Numbers(e, TimerExpired(e, event), key)
  {
    hide SegmentBlock, CountSentAll, SessionOk, NumbersOn, Following;
    if key in e.sessions {
      StoredIsActive(e, key);
      Following0(LastNumber(e.sessions[key]));
      Unnumbered([], key);
      match event.timerType
      case CHECKPOINT_TIMER =>
        var own := Key(e.config.localEngineId, event.sessionNumber);
        if own in e.sessions {
          StoredIsActive(e, own);
          OriginatorIsRed(e, own);
          BlockNumbers(BumpRetransmissions(e.sessions[own]), e.config.maxSegmentSize, key);
          OneNumber(MakeSegment(CANCEL_BY_SENDER, own.engineId, own.sessionNumber, CancelContent(1)), key);
        }
      case REPORT_TIMER =>
        var at := Key(event.engineId, event.sessionNumber);
        if at in e.sessions {
          StoredIsActive(e, at);
          OneNumber(ReportFor(e.sessions[at], event.serialNumber, e.sessions[at].totalDataLength), key);
        }
      case CANCEL_TIMER =>
    }
  }

  lemma OriginatorIsRed(e: Engine, key: Key)
    requires EngineOk(e) && key in e.sessions && key.engineId == e.config.localEngineId
    ensures e.sessions[key].isRed
  {
    assert SessionOk(e, key, e.sessions[key]);
  }

  /** Cancels and acknowledgments carry no number, and leave the sessions that stay as they are. */
  lemma OthersNumbers(e: Engine, o: Outcome, key: Key)
    requires forall k :: k in e.sessions && k in o.engine.sessions ==> o.engine.sessions[k] == e.sessions[k]
    requires forall i :: 0 <= i < |o.sent| ==> o.sent[i].content.CancelContent?
    ensures Numbers(e, o, key)
  {
    Unnumbered(o.sent, key);
    if key in e.sessions { Following0(LastNumber(e.sessions[key])); }
  }

  lemma OtherSegmentNumbers(e: Engine, seg: Segment, key: Key)
    requires Receivable(e, seg) && e.config.maxSegmentSize > 0
    requires !IsData(seg.segmentType) && seg.segmentType != REPORT_SEGMENT
    ensures Numbers(e, ReceiveSegment(e, seg), key)
  {
    OthersNumbers(e, ReceiveSegment(e, seg), key);
  }

  lemma HandlerNumbers(sys: System, a: Action, key: Key)
    requires Inv(sys) && Enabled(sys, a) && (a.Deliver? ==> FromPeer(sys.engines[a.who], a.seg))
    requires sys.engines[a.who].config.maxSegmentSize > 0
    ensures Numbers(sys.engines[a.who], Handle(sys, a), key)
  {
    hide Inv, EngineOk, Numbers, ReceiveData, ReceiveReport, StartSession, TimerExpired, ReceiveCancel,
      LtpEngineSpec.ReceiveReportAck, SessionsFit, SentFits, LiveFits;
    PartsOfInv(sys, a.who);
    var e := sys.engines[a.who];
    match a
    case Start(_, data, reliable) => StartNumbers(e, data, reliable, key);
    case Deliver(_, seg) =>
      if IsData(seg.segmentType) {
        DataNumbers(e, seg, key);
      } else if seg.segmentType == REPORT_SEGMENT {
        ReportNumbers(e, seg, key);
      } else {
        OtherSegmentNumbers(e, seg, key);
      }
    case Expire(_, event) => TimerNumbers(e, event, key);
    case Cancel(_, cancelled, reason) => OthersNumbers(e, CancelSession(e, cancelled, reason), key);
  }

  // ----- every run -----

  lemma StepNumbers(sys: System, a: Action, i: nat, key: Key)
    requires Inv(sys) && Shaped(sys) && i < 2
    ensures var next := Step(sys, a);
            && Shaped(next)
            && (key in sys.engines[i].sessions && key in next.engines[i].sessions ==>
                  var m, n := LastNumber(sys.engines[i].sessions[key]), LastNumber(next.engines[i].sessions[key]);
                  m <= n && NumbersOn(Output(sys, a, i).0, key) == Following(m, n))
  {
    hide Inv, Handle, NextLive, NextRounds, NextBlocks, NextArrivals, Logged, Receiving, EngineOk, Receivable, NumbersOn, Following,
      SessionsFit, SentFits, LiveFits, LastNumber;
    PartsOfInv(sys, i);
    Unnumbered([], key);
    if key in sys.engines[i].sessions { Following0(LastNumber(sys.engines[i].sessions[key])); }
    if Enabled(sys, a) {
      PartsOfInv(sys, a.who);
      if a.Deliver? { InFlightIsReceivable(sys, a.who, a.seg); }
      HandlerKeepsConfig(sys, a);
      HandlerNumbers(sys, a, key);
    }
  }

  /** The session is stored throughout a run. */
  ghost predicate Stays(sys: System, actions: seq<Action>, i: nat, key: Key)
    requires Inv(sys) && Shaped(sys) && i < 2
    decreases |actions|
  {
    && key in sys.engines[i].sessions
    && if |actions| == 0 then true
       else
         StepKeepsInv(sys, actions[0]);
         StepNumbers(sys, actions[0], i, key);
         Stays(Step(sys, actions[0]), actions[1..], i, key)
  }

  /** While a session is stored, everything its engine sends about it is numbered consecutively: the
      checkpoints of an originator, the reports of a receiver. In particular no two have the same number. */
  lemma {:induction false} NumbersAreConsecutive(sys: System, actions: seq<Action>, i: nat, key: Key)
    requires Inv(sys) && Shaped(sys) && i < 2 && Stays(sys, actions, i, key)
    ensures var after := Run(sys, actions);
            && Shaped(after) && key in sys.engines[i].sessions && key in after.engines[i].sessions
            && LastNumber(sys.engines[i].sessions[key]) <= LastNumber(after.engines[i].sessions[key])
            && NumbersOn(Sends(sys, actions, i), key)
               == Following(LastNumber(sys.engines[i].sessions[key]), LastNumber(after.engines[i].sessions[key]))
    decreases |actions|
  {
    hide Inv, Step, NumbersOn, Output, LastNumber, Following;
    if |actions| == 0 {
      Unnumbered([], key);
      Following0(LastNumber(sys.engines[i].sessions[key]));
    } else {
      StepKeepsInv(sys, actions[0]);
      StepNumbers(sys, actions[0], i, key);
      var next := Step(sys, actions[0]);
      NumbersAreConsecutive(next, actions[1..], i, key);
      NumbersConcat(Output(sys, actions[0], i).0, Sends(next, actions[1..], i), key);
      FollowingConcat(LastNumber(sys.engines[i].sessions[key]), LastNumber(next.engines[i].sessions[key]),
                      LastNumber(Run(next, actions[1..]).engines[i].sessions[key]));
    }
  }
}
