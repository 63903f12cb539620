/** Selective repair: whatever part of the first pass is lost, one report and one retransmission of
    the gaps are enough, provided the checkpoint and everything after it arrive. */
module LtpRepair {
  import opened Basics
  import opened Bits
  import opened Ranges
  import opened LtpSegment
  import opened LtpEngineSpec
  import opened LtpEngineInvariant
  import opened LtpWire
  import opened LtpSystem
  import opened LtpSystemSafety

  /** Handling one segment. A segment outside the handlers' preconditions would change nothing here;
      LtpSystem.InFlightIsReceivable shows that none is ever in flight. */
  ghost function DeliverOne(e: Engine, seg: Segment): (o: Outcome)
    requires EngineOk(e)
    ensures EngineOk(o.engine)
  {
    hide EngineOk, ReceiveSegment, FromPeer;
    OkParts(e);
    FromPeerIsReceivable(e, seg);
    if FromPeer(e, seg) then (ReceiveKeepsOk(e, seg); ReceiveSegment(e, seg)) else Outcome(e, [], [])
  }

  lemma OkParts(e: Engine)
    requires EngineOk(e)
    ensures e.config.maxSegmentSize > 0 && e.config.maxRetransmissions < 256
  {
  }

  lemma FromPeerIsReceivable(e: Engine, seg: Segment)
    ensures FromPeer(e, seg) ==> Receivable(e, seg)
  {
  }

  /** Delivering segments in order. */
  ghost function DeliverAll(e: Engine, segs: seq<Segment>): (o: Outcome)
    requires EngineOk(e)
    ensures EngineOk(o.engine)
    decreases |segs|
  {
    if |segs| == 0 then Outcome(e, [], [])
    else
      var n := |segs| - 1;
      var before := DeliverAll(e, segs[..n]);
      var last := DeliverOne(before.engine, segs[n]);
      Outcome(last.engine, before.sent + last.sent, before.events + last.events)
  }

  lemma {:induction false} DeliverConcat(e: Engine, xs: seq<Segment>, ys: seq<Segment>)
    requires EngineOk(e)
    ensures var one := DeliverAll(e, xs);
            var two := DeliverAll(one.engine, ys);
            DeliverAll(e, xs + ys) == Outcome(two.engine, one.sent + two.sent, one.events + two.events)
    decreases |ys|
  {
    hide EngineOk, DeliverOne;
    if |ys| == 0 {
      assert xs + ys == xs;
    } else {
      assert (xs + ys)[..|xs + ys| - 1] == xs + ys[..|ys| - 1];
      DeliverConcat(e, xs, ys[..|ys| - 1]);
    }
  }

  lemma DeliverSingle(e: Engine, seg: Segment)
    requires EngineOk(e)
    ensures DeliverAll(e, [seg]) == DeliverOne(e, seg)
  {
    hide EngineOk, DeliverOne;
    assert [seg][..0] == [];
    assert DeliverAll(e, [seg][..0]) == Outcome(e, [], []);
    var o := DeliverOne(e, seg);
    assert [] + o.sent == o.sent && [] + o.events == o.events;
  }

  // ----- the receiver of one block -----

  /** Engine `e` is `start` plus a receiver session for `key` that has taken in the ranges `got` of
      a red block, and possibly its end. Before anything arrived the session does not exist. */
  ghost predicate Collecting(start: Engine, e: Engine, key: Key, b: Block, got: seq<Claim>, sawEob: bool) {
    && EngineOk(e) && e.config == start.config && key !in start.sessions
    && (forall k :: k in start.sessions <==> k in e.sessions && k != key)
    && (forall k :: k in start.sessions ==> e.sessions[k] == start.sessions[k])
    && (key in e.sessions <==> got != [])
    && (got == [] ==> !sawEob)
    && (got != [] ==> ReceiverFits(b, e.sessions[key], got, sawEob))
  }

  /** A red data segment cut from the block. */
  ghost predicate RedPiece(key: Key, b: Block, seg: Segment) {
    && IsRed(seg.segmentType) && seg.content.DataContent? && KeyOf(seg) == key && b.red
    && DataFits(b, seg) && (seg.content.checkpointSerial.Some? <==> HasCheckpoint(seg.segmentType))
  }

  /** The bytes a data segment carries; nothing for any other segment. */
  function RangeOf(seg: Segment): Claim {
    if seg.content.DataContent? then Claim(seg.content.offset, seg.content.length) else Claim(0, 0)
  }

  lemma SameSize(start: Engine, e: Engine, key: Key)
    requires key !in start.sessions && key !in e.sessions
    requires forall k :: k in start.sessions <==> k in e.sessions && k != key
    ensures |e.sessions| == |start.sessions|
  {
    assert e.sessions.Keys == start.sessions.Keys;
  }

  /** One piece more. */
  lemma CollectOne(start: Engine, e: Engine, key: Key, b: Block, got: seq<Claim>, sawEob: bool, seg: Segment)
    requires Collecting(start, e, key, b, got, sawEob) && RedPiece(key, b, seg)
    requires key.engineId != start.config.localEngineId && |start.sessions| < start.config.maxConcurrentSessions
    ensures e.config.maxSegmentSize > 0 && Receivable(e, seg)
    ensures Collecting(start, ReceiveSegment(e, seg).engine, key, b, got + [RangeOf(seg)], sawEob || HasEob(seg.segmentType))
    ensures ReceiveSegment(e, seg).events == []
    ensures ReceiveSegment(e, seg).sent == ReportsSent(Absorb(ReceiverFor(e, seg), seg), seg)
    ensures key in ReceiveSegment(e, seg).engine.sessions
    ensures ReceiveSegment(e, seg).engine.sessions[key].ranges == Absorb(ReceiverFor(e, seg), seg).ranges
  {
    hide ReceiverFits, SessionOk, Absorb, Canonical, Within;
    if key !in e.sessions { SameSize(start, e, key); }
    var s0 := ReceiverFor(e, seg);
    CollectedSession(start, e, key, b, got, sawEob, seg);
    DataOutcome(e, seg);
    ReceiveDataKeepsOk(e, seg);
    AbsorbFits(b, s0, seg, got, sawEob);
    AbsorbKeepsRanges(s0, seg);
    AfterReportFits(b, Absorb(s0, seg), got + [RangeOf(seg)], sawEob || HasEob(seg.segmentType));
    hide ReceiveData;
    assert ReceiveSegment(e, seg) == ReceiveData(e, seg);
  }

  lemma CollectedSession(start: Engine, e: Engine, key: Key, b: Block, got: seq<Claim>, sawEob: bool, seg: Segment)
    requires Collecting(start, e, key, b, got, sawEob) && RedPiece(key, b, seg)
    requires key.engineId != start.config.localEngineId
    ensures var s0 := ReceiverFor(e, seg);
            && s0.state == ACTIVE && Canonical(s0.ranges) && Within(s0.ranges, 0, |s0.clientData|)
            && s0.totalDataLength <= |s0.clientData| && ReceiverFits(b, s0, got, sawEob)
  {
    if key in e.sessions {
      assert SessionOk(e, key, e.sessions[key]);
    } else {
      NewReceiverFits(b, seg);
    }
  }

  lemma AfterReportFits(b: Block, s: Session, taken: seq<Claim>, sawEob: bool)
    requires ReceiverFits(b, s, taken, sawEob)
    ensures ReceiverFits(b, AfterReport(s), taken, sawEob)
  {
  }

  function RangesOf(segs: seq<Segment>): (r: seq<Claim>)
    ensures |r| == |segs|
  {
    seq(|segs|, i requires 0 <= i < |segs| => RangeOf(segs[i]))
  }

  /** Any list of pieces without a checkpoint: the receiver only collects. */
  lemma {:induction false} CollectAll(start: Engine, e: Engine, key: Key, b: Block, got: seq<Claim>, sawEob: bool, segs: seq<Segment>)
    requires Collecting(start, e, key, b, got, sawEob)
    requires key.engineId != start.config.localEngineId && |start.sessions| < start.config.maxConcurrentSessions
    requires forall seg :: seg in segs ==> RedPiece(key, b, seg) && seg.segmentType == RED_DATA
    ensures Collecting(start, DeliverAll(e, segs).engine, key, b, got + RangesOf(segs), sawEob)
    ensures DeliverAll(e, segs).sent == [] && DeliverAll(e, segs).events == []
    decreases |segs|
  {
    hide Collecting, ReceiveSegment, RedPiece, EngineOk, FromPeer;
    EngineOfCollecting(start, e, key, b, got, sawEob);
    if |segs| == 0 {
      assert got + RangesOf(segs) == got;
    } else {
      var n := |segs| - 1;
      CollectAll(start, e, key, b, got, sawEob, segs[..n]);
      var mid := DeliverAll(e, segs[..n]).engine;
      var more := got + RangesOf(segs[..n]);
      CollectOne(start, mid, key, b, more, sawEob, segs[n]);
      PieceFromPeer(start, mid, key, b, more, sawEob, segs[n]);
      assert more + [RangeOf(segs[n])] == got + RangesOf(segs);
    }
  }

  lemma EngineOfCollecting(start: Engine, e: Engine, key: Key, b: Block, got: seq<Claim>, sawEob: bool)
    requires Collecting(start, e, key, b, got, sawEob)
    ensures EngineOk(e) && e.config == start.config
  {
  }

  lemma PieceFromPeer(start: Engine, e: Engine, key: Key, b: Block, got: seq<Claim>, sawEob: bool, seg: Segment)
    requires Collecting(start, e, key, b, got, sawEob) && RedPiece(key, b, seg)
    requires key.engineId != start.config.localEngineId
    ensures FromPeer(e, seg)
  {
  }

  // ----- what the originator puts on the air -----

  lemma {:induction false} CutCovers(offset: nat, remaining: nat, maxSeg: nat, x: nat)
    requires maxSeg > 0
    ensures Covers(Cut(offset, remaining, maxSeg), x) <==> offset <= x < offset + remaining
    decreases remaining
  {
    if remaining > 0 {
      var chunk := Min(maxSeg, remaining);
      CutCovers(offset + chunk, remaining - chunk, maxSeg, x);
      CoversCons(Claim(offset, chunk), Cut(offset + chunk, remaining - chunk, maxSeg), x);
    }
  }

  lemma CoversConcat(a: seq<Claim>, c: seq<Claim>, x: nat)
    ensures Covers(a + c, x) <==> Covers(a, x) || Covers(c, x)
  {
    var l := a + c;
    if Covers(a, x) {
      var i :| 0 <= i < |a| && a[i].Has(x);
      assert l[i].Has(x);
    }
    if Covers(c, x) {
      var i :| 0 <= i < |c| && c[i].Has(x);
      assert l[|a| + i].Has(x);
    }
    if Covers(l, x) {
      var i :| 0 <= i < |l| && l[i].Has(x);
      if i < |a| { assert a[i].Has(x); } else { assert c[i - |a|].Has(x); }
    }
  }

  lemma {:induction false} CutAllCovers(gaps: seq<Claim>, maxSeg: nat, x: nat)
    requires maxSeg > 0
    ensures Covers(CutAll(gaps, maxSeg), x) <==> Covers(gaps, x)
  {
    if |gaps| > 0 {
      var n := |gaps| - 1;
      CutAllCovers(gaps[..n], maxSeg, x);
      CutCovers(gaps[n].offset, gaps[n].length, maxSeg, x);
      CoversConcat(CutAll(gaps[..n], maxSeg), Cut(gaps[n].offset, gaps[n].length, maxSeg), x);
      CoversSnoc(gaps[..n], gaps[n], x);
      assert gaps == gaps[..n] + [gaps[n]];
    }
  }

  /** A list of pieces whose last one, and only that, is a checkpoint. */
  ghost predicate ClosedByCheckpoint(key: Key, b: Block, segs: seq<Segment>) {
    && |segs| > 0
    && (forall i :: 0 <= i < |segs| ==> RedPiece(key, b, segs[i]))
    && (forall i :: 0 <= i < |segs| - 1 ==> segs[i].segmentType == RED_DATA)
    && HasCheckpoint(segs[|segs| - 1].segmentType)
  }

  lemma PieceIsRed(key: Key, b: Block, s: Session, t: nat, piece: Claim, serial: Option<nat>)
    requires piece.End() <= |s.clientData| && s.clientData == b.data && b.red
    requires key == Key(s.engineId, s.sessionNumber) && IsRed(t) && (HasEob(t) ==> piece.End() == |b.data|)
    requires serial.Some? <==> HasCheckpoint(t)
    ensures RedPiece(key, b, DataSegment(s, t, piece, serial))
    ensures RangeOf(DataSegment(s, t, piece, serial)) == piece
    ensures DataSegment(s, t, piece, serial).segmentType == t
  {
  }

  /** The first pass: closed by a checkpoint with EOB, and covering exactly the block. */
  lemma FirstPass(key: Key, b: Block, s: Session, maxSeg: nat)
    requires maxSeg > 0 && s.clientData == b.data && b.red && s.isRed && key == Key(s.engineId, s.sessionNumber)
    ensures var segs := SegmentBlock(s, maxSeg);
            && ClosedByCheckpoint(key, b, segs)
            && HasEob(segs[|segs| - 1].segmentType)
            && forall x: nat :: Covers(RangesOf(segs), x) <==> x < |b.data|
  {
    hide DataSegment, RedPiece;
    var segs := SegmentBlock(s, maxSeg);
    var serial := Some(s.checkpointSerialCounter + 1);
    if |b.data| == 0 {
      PieceIsRed(key, b, s, RED_DATA_CP_EORP_EOB, Claim(0, 0), serial);
    } else {
      var pieces := Cut(0, |b.data|, maxSeg);
      CutWithin(0, |b.data|, maxSeg);
      LastPieceEnds(0, |b.data|, maxSeg);
      PiecesAreRed(key, b, s, pieces, RED_DATA_CP_EORP_EOB, serial);
      forall x: nat ensures Covers(pieces, x) <==> x < |b.data| {
        CutCovers(0, |b.data|, maxSeg, x);
      }
    }
  }

  lemma PiecesAreRed(key: Key, b: Block, s: Session, pieces: seq<Claim>, lastType: nat, serial: Option<nat>)
    requires |pieces| > 0 && Within(pieces, 0, |s.clientData|) && s.clientData == b.data && b.red
    requires key == Key(s.engineId, s.sessionNumber) && serial.Some? && lastType in {RED_DATA_CP, RED_DATA_CP_EORP_EOB}
    requires HasEob(lastType) ==> pieces[|pieces| - 1].End() == |b.data|
    ensures var segs := PieceSegments(s, pieces, RED_DATA, lastType, serial);
            && ClosedByCheckpoint(key, b, segs)
            && segs[|segs| - 1].segmentType == lastType
            && RangesOf(segs) == pieces
  {
    hide DataSegment, RedPiece;
    var n := |pieces|;
    PieceIsRed(key, b, s, lastType, pieces[n - 1], serial);
    forall i | 0 <= i < n - 1
      ensures RedPiece(key, b, DataSegment(s, RED_DATA, pieces[i], None))
      ensures RangeOf(DataSegment(s, RED_DATA, pieces[i], None)) == pieces[i]
      ensures DataSegment(s, RED_DATA, pieces[i], None).segmentType == RED_DATA
    {
      PieceIsRed(key, b, s, RED_DATA, pieces[i], None);
    }
  }

  lemma GapsAreCut(gaps: seq<Claim>, maxSeg: nat)
    requires maxSeg > 0 && |gaps| > 0 && Canonical(gaps)
    ensures |CutAll(gaps, maxSeg)| > 0
  {
    hide CutAll;
    assert gaps[0].Has(gaps[0].offset);
    CutAllCovers(gaps, maxSeg, gaps[0].offset);
  }

  /** The retransmission: closed by a checkpoint, and covering exactly the gaps. */
  lemma SecondPass(key: Key, b: Block, s: Session, gaps: seq<Claim>, maxSeg: nat)
    requires maxSeg > 0 && s.clientData == b.data && b.red && key == Key(s.engineId, s.sessionNumber)
    requires Within(gaps, 0, |b.data|) && |gaps| > 0 && Canonical(gaps)
    ensures var segs := RetransmitSegments(s, gaps, maxSeg);
            && ClosedByCheckpoint(key, b, segs)
            && segs[|segs| - 1].segmentType == RED_DATA_CP
            && forall x: nat :: Covers(RangesOf(segs), x) <==> Covers(gaps, x)
  {
    hide DataSegment, RedPiece, CutAll, PieceSegments, ClosedByCheckpoint, Canonical, Covers;
    var pieces := CutAll(gaps, maxSeg);
    CutAllWithin(gaps, maxSeg, |b.data|);
    GapsAreCut(gaps, maxSeg);
    PiecesAreRed(key, b, s, pieces, RED_DATA_CP, Some(s.checkpointSerialCounter + 1));
    assert RetransmitSegments(s, gaps, maxSeg) == PieceSegments(s, pieces, RED_DATA, RED_DATA_CP, Some(s.checkpointSerialCounter + 1));
    forall x: nat ensures Covers(pieces, x) <==> Covers(gaps, x) {
      CutAllCovers(gaps, maxSeg, x);
    }
  }

  // ----- one pass at the receiver -----

  /** A report on the block at `key`, claiming `ranges`, from zero up to `upper`. */
  predicate IsReport(seg: Segment, key: Key, ranges: seq<Claim>, upper: nat) {
    && seg.segmentType == REPORT_SEGMENT && KeyOf(seg) == key && seg.content.ReportContent?
    && seg.content.lowerBound == 0 && seg.content.upperBound == upper && seg.content.claims == ranges
  }

  /** The report names the checkpoint it answers. */
  predicate Answers(report: Segment, checkpoint: Segment) {
    && report.content.ReportContent? && checkpoint.content.DataContent?
    && checkpoint.content.checkpointSerial == Some(report.content.checkpointNumber)
  }

  /** A pass that ends in a checkpoint makes the receiver send exactly one report, on all it has, naming
      that checkpoint. */
  lemma OnePass(start: Engine, e: Engine, key: Key, b: Block, got: seq<Claim>, sawEob: bool, segs: seq<Segment>, last: Segment)
    requires Collecting(start, e, key, b, got, sawEob)
    requires key.engineId != start.config.localEngineId && |start.sessions| < start.config.maxConcurrentSessions
    requires forall seg :: seg in segs ==> RedPiece(key, b, seg) && seg.segmentType == RED_DATA
    requires RedPiece(key, b, last) && HasCheckpoint(last.segmentType)
    ensures EngineOk(e)
    ensures var o := DeliverAll(e, segs + [last]);
            && Collecting(start, o.engine, key, b, got + RangesOf(segs + [last]), sawEob || HasEob(last.segmentType))
            && key in o.engine.sessions && o.events == [] && |o.sent| == 1
            && IsReport(o.sent[0], key, o.engine.sessions[key].ranges, RangeOf(last).End()) && Answers(o.sent[0], last)
  {
    hide Collecting, ReceiveSegment, RedPiece, EngineOk, FromPeer, Absorb, ReceiverFor;
    EngineOfCollecting(start, e, key, b, got, sawEob);
    CollectAll(start, e, key, b, got, sawEob, segs);
    var mid := DeliverAll(e, segs).engine;
    var more := got + RangesOf(segs);
    CollectOne(start, mid, key, b, more, sawEob, last);
    PieceFromPeer(start, mid, key, b, more, sawEob, last);
    DeliverConcat(e, segs, [last]);
    DeliverSingle(mid, last);
    ReportAfterCheckpoint(mid, key, b, last);
    assert more + [RangeOf(last)] == got + RangesOf(segs + [last]);
  }

  lemma ReportAfterCheckpoint(e: Engine, key: Key, b: Block, last: Segment)
    requires EngineOk(e) && RedPiece(key, b, last) && HasCheckpoint(last.segmentType)
    ensures var s1 := Absorb(ReceiverFor(e, last), last);
            && |ReportsSent(s1, last)| == 1
            && IsReport(ReportsSent(s1, last)[0], key, s1.ranges, RangeOf(last).End()) && Answers(ReportsSent(s1, last)[0], last)
  {
    hide Absorb;
    AbsorbKeepsIdentity(ReceiverFor(e, last), last);
    if key in e.sessions { SessionNumberOf(e, key); }
  }

  // ----- the originator of one block -----

  /** Engine `e` is `start` plus the originator session for `key`, after `rounds` retransmissions. */
  ghost predicate Originating(start: Engine, e: Engine, key: Key, b: Block, rounds: nat) {
    && EngineOk(e) && e.config == start.config && key !in start.sessions
    && key.engineId == e.config.localEngineId && b.red && key in e.sessions
    && e.sessions == start.sessions[key := e.sessions[key]]
    && e.sessions[key].clientData == b.data && e.sessions[key].retransmissionCount == rounds
  }

  /** A list of tracked ranges that lie in the block. */
  ghost predicate Claims(b: Block, ranges: seq<Claim>) {
    Canonical(ranges) && Within(ranges, 0, |b.data|)
  }

  ghost predicate CoversBlock(b: Block, ranges: seq<Claim>) {
    forall x: nat :: x < |b.data| ==> Covers(ranges, x)
  }

  lemma OriginatorParts(start: Engine, e: Engine, key: Key, b: Block, rounds: nat)
    requires Originating(start, e, key, b, rounds)
    ensures key in e.sessions
    ensures var s := e.sessions[key];
            && s.role == ORIGINATOR && s.state == ACTIVE && s.totalDataLength == |b.data| && s.clientData == b.data
            && s.engineId == key.engineId && s.sessionNumber == key.sessionNumber && s.retransmissionCount == rounds
  {
    assert SessionOk(e, key, e.sessions[key]);
  }

  lemma ReportIsFromPeer(start: Engine, e: Engine, key: Key, b: Block, rounds: nat, seg: Segment, ranges: seq<Claim>, upper: nat)
    requires Originating(start, e, key, b, rounds) && IsReport(seg, key, ranges, upper) && upper <= |b.data|
    ensures FromPeer(e, seg)
  {
  }

  /** The claim test of the originator, on a report about the whole block, is exact. */
  lemma ClaimTestIsExact(b: Block, s: Session, ranges: seq<Claim>)
    requires Claims(b, ranges) && s.totalDataLength == |b.data|
    ensures FullyReceived(s, ranges) <==> CoversBlock(b, ranges)
  {
    CompleteIffCovered(ranges, |b.data|);
  }

  lemma ReportCompletes(start: Engine, e: Engine, key: Key, b: Block, rounds: nat, seg: Segment, ranges: seq<Claim>, upper: nat)
    requires Originating(start, e, key, b, rounds) && IsReport(seg, key, ranges, upper) && upper <= |b.data|
    requires Claims(b, ranges) && CoversBlock(b, ranges)
    ensures var o := DeliverOne(e, seg);
            && o.sent == [AckFor(key.engineId, key.sessionNumber, seg.content.reportNumber)] && Acknowledges(o.sent[0], seg)
            && o.events == [SessionComplete(key.sessionNumber)]
            && o.engine.sessions == start.sessions && o.engine.diag.retransmissions == e.diag.retransmissions
  {
    hide EngineOk, FromPeer, FullyReceived, Claims, CoversBlock, Gaps, RetransmitSegments, CutAll, Octet;
    AckOctet(seg);
    OriginatorParts(start, e, key, b, rounds);
    ReportIsFromPeer(start, e, key, b, rounds, seg, ranges, upper);
    ClaimTestIsExact(b, e.sessions[key], ranges);
    OkParts(e);
  }

  lemma {:induction false} CountingKeepsRetransmissions(d: Diagnostics, segs: seq<Segment>)
    ensures CountSentAll(d, segs).retransmissions == d.retransmissions
  {
    if |segs| > 0 {
      CountingKeepsRetransmissions(d, segs[..|segs| - 1]);
    }
  }

  /** Everything from `upper` on is claimed. */
  ghost predicate TailClaimed(b: Block, ranges: seq<Claim>, upper: nat) {
    upper <= |b.data| && forall x: nat :: upper <= x < |b.data| ==> Covers(ranges, x)
  }

  /** What is missing according to a report up to `upper`. */
  function Missing(ranges: seq<Claim>, upper: nat): seq<Claim> {
    Gaps(ranges, 0, upper)
  }

  lemma MissingIsExact(b: Block, ranges: seq<Claim>, upper: nat)
    requires Claims(b, ranges) && TailClaimed(b, ranges, upper)
    ensures Canonical(Missing(ranges, upper)) && Within(Missing(ranges, upper), 0, |b.data|)
    ensures forall x: nat :: Covers(Missing(ranges, upper), x) <==> x < |b.data| && !Covers(ranges, x)
    ensures !CoversBlock(b, ranges) ==> |Missing(ranges, upper)| > 0
  {
    GapsAreExact(ranges, 0, upper);
    GapsCoverTheRest(ranges, 0, upper);
  }

  lemma ReportRepairs(start: Engine, e: Engine, key: Key, b: Block, rounds: nat, seg: Segment, ranges: seq<Claim>, upper: nat)
    requires Originating(start, e, key, b, rounds) && IsReport(seg, key, ranges, upper) && TailClaimed(b, ranges, upper)
    requires Claims(b, ranges) && !CoversBlock(b, ranges) && rounds < e.config.maxRetransmissions
    ensures EngineOk(e) && e.config.maxSegmentSize > 0 && Within(Missing(ranges, upper), 0, |e.sessions[key].clientData|)
    ensures var o := DeliverOne(e, seg);
            var again := RetransmitSegments(BumpRetransmissions(e.sessions[key]), Missing(ranges, upper), e.config.maxSegmentSize);
            && o.sent == [AckFor(key.engineId, key.sessionNumber, seg.content.reportNumber)] + again && Acknowledges(o.sent[0], seg)
            && o.events == []
            && Originating(start, o.engine, key, b, rounds + 1)
            && o.engine.diag.retransmissions == e.diag.retransmissions + 1
  {
    hide EngineOk, FromPeer, FullyReceived, Claims, CoversBlock, Gaps, RetransmitSegments, CutAll, CountSentAll, Octet;
    AckOctet(seg);
    OriginatorParts(start, e, key, b, rounds);
    ReportIsFromPeer(start, e, key, b, rounds, seg, ranges, upper);
    ClaimTestIsExact(b, e.sessions[key], ranges);
    MissingIsExact(b, ranges, upper);
    OkParts(e);
    var d0 := e.diag.(reportsReceived := e.diag.reportsReceived + 1);
    var d1 := CountSent(d0, AckFor(seg.engineId, seg.sessionNumber, seg.content.reportNumber));
    var again := RetransmitSegments(BumpRetransmissions(e.sessions[key]), Missing(ranges, upper), e.config.maxSegmentSize);
    CountingKeepsRetransmissions(d1.(retransmissions := d1.retransmissions + 1), again);
    assert EngineOk(DeliverOne(e, seg).engine);
  }

  // ----- acknowledgments at the receiver -----

  predicate IsAck(seg: Segment, key: Key) {
    seg.segmentType == REPORT_ACK && KeyOf(seg) == key && seg.content.AckContent?
  }

  /** What the session has tracked is exactly what arrived, within the block. */
  lemma CollectedRanges(start: Engine, e: Engine, key: Key, b: Block, got: seq<Claim>)
    requires Collecting(start, e, key, b, got, true)
    requires key.engineId != start.config.localEngineId
    ensures key in e.sessions
    ensures var s := e.sessions[key];
            && s.role == RECEIVER && s.totalDataLength == |b.data| && Claims(b, s.ranges)
            && (forall x: nat :: Covers(s.ranges, x) <==> Covers(got, x))
            && s.totalDataLength <= |s.clientData|
            && (IsComplete(s.ranges, s.totalDataLength) <==> CoversBlock(b, got))
            && (CoversBlock(b, got) ==> s.clientData[..s.totalDataLength] == b.data)
  {
    var s := e.sessions[key];
    assert SessionOk(e, key, s);
    CompleteIffCovered(s.ranges, |b.data|);
  }

  lemma AckIsFromPeer(start: Engine, e: Engine, key: Key, b: Block, got: seq<Claim>, seg: Segment)
    requires Collecting(start, e, key, b, got, true) && IsAck(seg, key)
    requires key.engineId != start.config.localEngineId
    ensures FromPeer(e, seg)
  {
    CollectedRanges(start, e, key, b, got);
  }

  /** An acknowledgment that comes before the block is whole changes nothing. */
  lemma AckTooEarly(start: Engine, e: Engine, key: Key, b: Block, got: seq<Claim>, seg: Segment)
    requires Collecting(start, e, key, b, got, true) && IsAck(seg, key) && !CoversBlock(b, got)
    requires key.engineId != start.config.localEngineId
    ensures EngineOk(e)
    ensures var o := DeliverOne(e, seg);
            o.sent == [] && o.events == [] && Collecting(start, o.engine, key, b, got, true)
  {
    hide EngineOk, FromPeer, CoversBlock, Claims, ReceiverFits, IsComplete;
    CollectedRanges(start, e, key, b, got);
    AckIsFromPeer(start, e, key, b, got, seg);
    OkParts(e);
    assert EngineOk(DeliverOne(e, seg).engine);
  }

  /** Once the block is whole, the acknowledgment delivers exactly it and closes the session. */
  lemma AckCloses(start: Engine, e: Engine, key: Key, b: Block, got: seq<Claim>, seg: Segment)
    requires Collecting(start, e, key, b, got, true) && IsAck(seg, key) && CoversBlock(b, got)
    requires key.engineId != start.config.localEngineId
    ensures EngineOk(e) && key in e.sessions
    ensures var o := DeliverOne(e, seg);
            && o.sent == [] && o.events == [Delivered(key, true, b.data, e.sessions[key].ranges)]
            && o.engine.sessions == start.sessions
  {
    hide EngineOk, FromPeer, CoversBlock, Claims, ReceiverFits, IsComplete;
    CollectedRanges(start, e, key, b, got);
    AckIsFromPeer(start, e, key, b, got, seg);
    OkParts(e);
  }

  // ----- the exchange -----

  datatype Talk = Talk(a: Engine, b: Engine, inFlight: seq<Segment>, eventsA: seq<Event>, eventsB: seq<Event>)

  /** Everything in flight reaches `b`, all it sends reaches `a`, and so on, in order and without loss. */
  ghost function Exchange(a: Engine, b: Engine, toB: seq<Segment>, rounds: nat): (t: Talk)
    requires EngineOk(a) && EngineOk(b)
    ensures EngineOk(t.a) && EngineOk(t.b)
    decreases rounds
  {
    if rounds == 0 then Talk(a, b, toB, [], [])
    else
      var ob := DeliverAll(b, toB);
      var oa := DeliverAll(a, ob.sent);
      var rest := Exchange(oa.engine, ob.engine, oa.sent, rounds - 1);
      Talk(rest.a, rest.b, rest.inFlight, oa.events + rest.eventsA, ob.events + rest.eventsB)
  }

  lemma {:induction false} Quiet(a: Engine, b: Engine, rounds: nat)
    requires EngineOk(a) && EngineOk(b)
    ensures Exchange(a, b, [], rounds) == Talk(a, b, [], [], [])
    decreases rounds
  {
    hide EngineOk;
    if rounds > 0 {
      Quiet(a, b, rounds - 1);
    }
  }

  lemma OneRound(a: Engine, b: Engine, toB: seq<Segment>, rounds: nat)
    requires EngineOk(a) && EngineOk(b)
    ensures var ob := DeliverAll(b, toB);
            var oa := DeliverAll(a, ob.sent);
            var rest := Exchange(oa.engine, ob.engine, oa.sent, rounds);
            Exchange(a, b, toB, rounds + 1)
            == Talk(rest.a, rest.b, rest.inFlight, oa.events + rest.eventsA, ob.events + rest.eventsB)
  {
    hide EngineOk, DeliverAll;
  }

  /** From a report on the whole block to the end. */
  lemma Finish(startA: Engine, a: Engine, startB: Engine, e: Engine, key: Key, b: Block, sent: nat, got: seq<Claim>,
               report: Segment, upper: nat, rounds: nat)
    requires Originating(startA, a, key, b, sent) && Collecting(startB, e, key, b, got, true)
    requires key.engineId != startB.config.localEngineId && CoversBlock(b, got)
    requires key in e.sessions && IsReport(report, key, e.sessions[key].ranges, upper) && upper <= |b.data|
    ensures EngineOk(a) && EngineOk(e)
    ensures var oa := DeliverAll(a, [report]);
            && oa.events == [SessionComplete(key.sessionNumber)]
            && oa.engine.sessions == startA.sessions && oa.engine.diag.retransmissions == a.diag.retransmissions
            && var t := Exchange(oa.engine, e, oa.sent, rounds + 1);
               && t.inFlight == [] && t.a == oa.engine && t.b.sessions == startB.sessions && t.eventsA == []
               && t.eventsB == [Delivered(key, true, b.data, e.sessions[key].ranges)]
  {
    hide EngineOk, Collecting, Originating, CoversBlock, Claims, IsReport, DeliverOne;
    OriginatorOk(startA, a, key, b, sent);
    EngineOfCollecting(startB, e, key, b, got, true);
    CollectedRanges(startB, e, key, b, got);
    SameCoverage(b, got, e.sessions[key].ranges);
    ReportCompletes(startA, a, key, b, sent, report, e.sessions[key].ranges, upper);
    DeliverSingle(a, report);
    var oa := DeliverAll(a, [report]);
    AckCloses(startB, e, key, b, got, oa.sent[0]);
    DeliverSingle(e, oa.sent[0]);
    Quiet(oa.engine, DeliverAll(e, oa.sent).engine, rounds);
  }

  lemma OriginatorOk(start: Engine, e: Engine, key: Key, b: Block, rounds: nat)
    requires Originating(start, e, key, b, rounds)
    ensures EngineOk(e) && e.config == start.config && e.config.maxSegmentSize > 0
  {
  }

  lemma SameCoverage(b: Block, got: seq<Claim>, ranges: seq<Claim>)
    requires forall x: nat :: Covers(ranges, x) <==> Covers(got, x)
    ensures CoversBlock(b, got) <==> CoversBlock(b, ranges)
  {
  }

  lemma PassParts(key: Key, b: Block, segs: seq<Segment>)
    requires ClosedByCheckpoint(key, b, segs)
    ensures var n := |segs| - 1;
            && n >= 0 && RedPiece(key, b, segs[n]) && HasCheckpoint(segs[n].segmentType)
            && forall seg :: seg in segs[..n] ==> RedPiece(key, b, seg) && seg.segmentType == RED_DATA
  {
    hide RedPiece;
  }

  /** An acknowledgment that comes too early might as well not have come. */
  lemma SkipAck(startB: Engine, e: Engine, key: Key, b: Block, got: seq<Claim>, ack: Segment, again: seq<Segment>)
    returns (mid: Engine)
    requires Collecting(startB, e, key, b, got, true) && key.engineId != startB.config.localEngineId
    requires IsAck(ack, key) && !CoversBlock(b, got)
    ensures EngineOk(e) && EngineOk(mid) && Collecting(startB, mid, key, b, got, true)
    ensures DeliverAll(e, [ack] + again) == DeliverAll(mid, again)
  {
    hide EngineOk, Collecting, CoversBlock, DeliverOne, DeliverAll, IsAck;
    AckTooEarly(startB, e, key, b, got, ack);
    mid := DeliverOne(e, ack).engine;
    DeliverSingle(e, ack);
    DeliverConcat(e, [ack], again);
    var o := DeliverAll(mid, again);
    assert [] + o.sent == o.sent && [] + o.events == o.events;
  }

  /** A whole retransmission of what is missing. */
  lemma Refill(startB: Engine, e: Engine, key: Key, b: Block, got: seq<Claim>, again: seq<Segment>)
    returns (more: seq<Claim>, upper: nat)
    requires Collecting(startB, e, key, b, got, true) && key.engineId != startB.config.localEngineId
    requires |startB.sessions| < startB.config.maxConcurrentSessions && ClosedByCheckpoint(key, b, again)
    requires forall x: nat :: Covers(RangesOf(again), x) <==> x < |b.data| && !Covers(got, x)
    ensures EngineOk(e)
    ensures var ob := DeliverAll(e, again);
            && ob.events == [] && |ob.sent| == 1 && Collecting(startB, ob.engine, key, b, more, true) && CoversBlock(b, more)
            && key in ob.engine.sessions && upper <= |b.data| && IsReport(ob.sent[0], key, ob.engine.sessions[key].ranges, upper)
  {
    hide *;
    var n := |again| - 1;
    PassParts(key, b, again);
    assert again[..n] + [again[n]] == again;
    OnePass(startB, e, key, b, got, true, again[..n], again[n]);
    more := got + RangesOf(again);
    upper := RangeOf(again[n]).End();
    PieceEnds(key, b, again[n]);
    Filled(b, got, RangesOf(again));
  }

  /** From a report with gaps to the report that has none. */
  lemma Repair(startA: Engine, a: Engine, startB: Engine, e: Engine, key: Key, b: Block, got: seq<Claim>, report: Segment)
    returns (more: seq<Claim>, upper: nat)
    requires Originating(startA, a, key, b, 0) && Collecting(startB, e, key, b, got, true)
    requires key.engineId != startB.config.localEngineId && !CoversBlock(b, got)
    requires |startB.sessions| < startB.config.maxConcurrentSessions && a.config.maxRetransmissions >= 1
    requires key in e.sessions && IsReport(report, key, e.sessions[key].ranges, |b.data|)
    ensures EngineOk(a) && EngineOk(e)
    ensures var oa := DeliverAll(a, [report]);
            var ob := DeliverAll(e, oa.sent);
            && oa.events == [] && Originating(startA, oa.engine, key, b, 1)
            && oa.engine.diag.retransmissions == a.diag.retransmissions + 1
            && ob.events == [] && |ob.sent| == 1 && Collecting(startB, ob.engine, key, b, more, true) && CoversBlock(b, more)
            && key in ob.engine.sessions && upper <= |b.data| && IsReport(ob.sent[0], key, ob.engine.sessions[key].ranges, upper)
  {
    hide EngineOk, Collecting, Originating, CoversBlock, Claims, IsReport, DeliverOne, DeliverAll, RetransmitSegments, Missing,
      ClosedByCheckpoint;
    OriginatorOk(startA, a, key, b, 0);
    OriginatorParts(startA, a, key, b, 0);
    EngineOfCollecting(startB, e, key, b, got, true);
    CollectedRanges(startB, e, key, b, got);
    var ranges := e.sessions[key].ranges;
    SameCoverage(b, got, ranges);
    var n := |b.data|;
    MissingIsExact(b, ranges, n);
    ReportRepairs(startA, a, key, b, 0, report, ranges, n);
    DeliverSingle(a, report);
    var s := BumpRetransmissions(a.sessions[key]);
    BlockOfOriginator(startA, a, key, b, 0);
    SecondPass(key, b, s, Missing(ranges, n), a.config.maxSegmentSize);
    var again := RetransmitSegments(s, Missing(ranges, n), a.config.maxSegmentSize);
    var mid := SkipAck(startB, e, key, b, got, DeliverOne(a, report).sent[0], again);
    more, upper := Refill(startB, mid, key, b, got, again);
  }

  lemma BlockOfOriginator(start: Engine, e: Engine, key: Key, b: Block, rounds: nat)
    requires Originating(start, e, key, b, rounds)
    ensures b.red && key.engineId == e.config.localEngineId
  {
  }

  lemma PieceEnds(key: Key, b: Block, seg: Segment)
    requires RedPiece(key, b, seg)
    ensures RangeOf(seg).End() <= |b.data|
    ensures HasEob(seg.segmentType) ==> RangeOf(seg).End() == |b.data|
  {
  }

  lemma Filled(b: Block, got: seq<Claim>, again: seq<Claim>)
    requires forall x: nat :: Covers(again, x) <==> x < |b.data| && !Covers(got, x)
    ensures CoversBlock(b, got + again)
  {
    hide Covers;
    forall x: nat | x < |b.data| ensures Covers(got + again, x) {
      CoversConcat(got, again, x);
    }
  }

  /** The whole exchange, from the first checkpoint on. */
  lemma Conclude(startA: Engine, a: Engine, startB: Engine, key: Key, b: Block, segs: seq<Segment>, last: Segment)
    requires Originating(startA, a, key, b, 0) && Collecting(startB, startB, key, b, [], false)
    requires key.engineId != startB.config.localEngineId && |startB.sessions| < startB.config.maxConcurrentSessions
    requires forall seg :: seg in segs ==> RedPiece(key, b, seg) && seg.segmentType == RED_DATA
    requires RedPiece(key, b, last) && HasCheckpoint(last.segmentType) && HasEob(last.segmentType)
    requires a.config.maxRetransmissions >= 1 || CoversBlock(b, RangesOf(segs + [last]))
    ensures EngineOk(a) && EngineOk(startB)
    ensures Settled(startA, a, startB, key, b, CoversBlock(b, RangesOf(segs + [last])), Exchange(a, startB, segs + [last], 3))
  {
    hide EngineOk, Collecting, Originating, CoversBlock, IsReport, RedPiece, DeliverAll, Exchange;
    OriginatorOk(startA, a, key, b, 0);
    OnePass(startB, startB, key, b, [], false, segs, last);
    PieceEnds(key, b, last);
    var got := RangesOf(segs + [last]);
    assert [] + got == got;
    var ob := DeliverAll(startB, segs + [last]);
    var e, report := ob.engine, ob.sent[0];
    assert ob.sent == [report];
    OneRound(a, startB, segs + [last], 2);
    if CoversBlock(b, got) {
      Finish(startA, a, startB, e, key, b, 0, got, report, |b.data|, 1);
    } else {
      var more, upper := Repair(startA, a, startB, e, key, b, got, report);
      var oa := DeliverAll(a, [report]);
      var again := DeliverAll(e, oa.sent);
      assert again.sent == [again.sent[0]];
      OneRound(oa.engine, e, oa.sent, 1);
      Finish(startA, oa.engine, startB, again.engine, key, b, 1, more, again.sent[0], upper, 0);
    }
  }

  /** Nothing is in flight, the originator has completed, the receiver has delivered exactly the
      block, neither stores the session any more, and there was a retransmission only if needed. */
  ghost predicate Settled(startA: Engine, a: Engine, startB: Engine, key: Key, b: Block, whole: bool, t: Talk) {
    && t.inFlight == []
    && t.eventsA == [SessionComplete(key.sessionNumber)]
    && |t.eventsB| == 1 && t.eventsB[0].Delivered? && t.eventsB[0].key == key && t.eventsB[0].red && t.eventsB[0].data == b.data
    && t.a.sessions == startA.sessions && t.b.sessions == startB.sessions
    && t.a.diag.retransmissions == a.diag.retransmissions + if whole then 0 else 1
  }

  /** Selective repair suffices. Of the first pass, any part but the checkpoint is lost, the rest
      arrives in any order and any number of times, then the checkpoint; nothing is lost after that.
      Then both ends finish with at most one retransmission, and with none exactly when every byte
      arrived in the first pass. */
  lemma OneRepairSuffices(a: Engine, b: Engine, data: seq<byte>, arrived: seq<Segment>)
    requires EngineOk(a) && EngineOk(b) && a.config.localEngineId != b.config.localEngineId
    requires !Full(a) && !Full(b) && a.config.maxRetransmissions >= 1
    requires Key(a.config.localEngineId, a.sessionCounter + 1) !in b.sessions
    requires forall seg :: seg in arrived ==>
               seg in StartSession(a, data, true).0.sent && !HasCheckpoint(seg.segmentType)
    ensures var started := StartSession(a, data, true).0;
            && EngineOk(started.engine) && |started.sent| > 0
            && var last := started.sent[|started.sent| - 1];
               && HasCheckpoint(last.segmentType)
               && Settled(a, started.engine, b, Key(a.config.localEngineId, a.sessionCounter + 1), Block(data, true),
                          CoversBlock(Block(data, true), RangesOf(arrived + [last])),
                          Exchange(started.engine, b, arrived + [last], 3))
  {
    hide Collecting, Originating, CoversBlock, RedPiece, DeliverAll, Exchange, SegmentBlock, StartSession, EngineOk, Settled;
    var block := Block(data, true);
    var key := Key(a.config.localEngineId, a.sessionCounter + 1);
    OkParts(a);
    Started(a, b, data);
    var started := StartSession(a, data, true).0;
    OriginatorOk(a, started.engine, key, block, 0);
    var last := started.sent[|started.sent| - 1];
    forall seg | seg in arrived ensures RedPiece(key, block, seg) && seg.segmentType == RED_DATA {
      var i :| 0 <= i < |started.sent| && started.sent[i] == seg;
    }
    Conclude(a, started.engine, b, key, block, arrived, last);
  }

  /** Both ends right after the originator has sent the first pass. */
  lemma Started(a: Engine, b: Engine, data: seq<byte>)
    requires EngineOk(a) && EngineOk(b) && a.config.localEngineId != b.config.localEngineId && !Full(a)
    requires Key(a.config.localEngineId, a.sessionCounter + 1) !in b.sessions
    ensures var started := StartSession(a, data, true).0;
            var key := Key(a.config.localEngineId, a.sessionCounter + 1);
            var block := Block(data, true);
            && Originating(a, started.engine, key, block, 0) && Collecting(b, b, key, block, [], false)
            && ClosedByCheckpoint(key, block, started.sent)
            && HasEob(started.sent[|started.sent| - 1].segmentType)
            && CoversBlock(block, RangesOf(started.sent))
  {
    hide Collecting, RedPiece, SegmentBlock, StartSession, SessionOk, ClosedByCheckpoint;
    var key := Key(a.config.localEngineId, a.sessionCounter + 1);
    StartOutcome(a, data, true);
    StartKeepsOk(a, data, true);
    NextKeyIsFree(a);
    FirstPass(key, Block(data, true), NewOriginator(a, data, true), a.config.maxSegmentSize);
    NothingCollected(b, key, Block(data, true));
  }

  lemma NothingCollected(b: Engine, key: Key, block: Block)
    requires EngineOk(b) && key !in b.sessions
    ensures Collecting(b, b, key, block, [], false)
  {
  }

  /** With no loss there is no retransmission, whatever the limit. */
  lemma NoLossNoRepair(a: Engine, b: Engine, data: seq<byte>)
    requires EngineOk(a) && EngineOk(b) && a.config.localEngineId != b.config.localEngineId
    requires !Full(a) && !Full(b)
    requires Key(a.config.localEngineId, a.sessionCounter + 1) !in b.sessions
    ensures var started := StartSession(a, data, true).0;
            && EngineOk(started.engine)
            && Settled(a, started.engine, b, Key(a.config.localEngineId, a.sessionCounter + 1), Block(data, true), true,
                       Exchange(started.engine, b, started.sent, 3))
  {
    hide EngineOk, RedPiece, Collecting, Originating, CoversBlock, Exchange, SegmentBlock, StartSession, Settled;
    OkParts(a);
    Started(a, b, data);
    var started := StartSession(a, data, true).0;
    var n := |started.sent| - 1;
    assert started.sent[..n] + [started.sent[n]] == started.sent;
    Conclude(a, started.engine, b, Key(a.config.localEngineId, a.sessionCounter + 1), Block(data, true),
             started.sent[..n], started.sent[n]);
  }
}
