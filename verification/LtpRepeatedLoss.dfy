/** Repair under repeated loss: as long as the checkpoint of every pass arrives, segments may be lost,
    reordered and repeated in as many passes as the retransmission limit allows. */
module LtpRepeatedLoss {
  import opened Basics
  import opened Bits
  import opened Ranges
  import opened LtpSegment
  import opened LtpEngineSpec
  import opened LtpEngineInvariant
  import opened LtpSystem
  import opened LtpSystemSafety
  import opened LtpRepair

  // ----- the pieces of a retransmission are in order -----

  lemma {:induction false} CutIsSorted(offset: nat, remaining: nat, maxSeg: nat)
    requires maxSeg > 0
    ensures SortedDisjoint(Cut(offset, remaining, maxSeg))
    decreases remaining
  {
    if remaining > 0 {
      var chunk := Min(maxSeg, remaining);
      CutIsSorted(offset + chunk, remaining - chunk, maxSeg);
      CutWithin(offset + chunk, remaining - chunk, maxSeg);
    }
  }

  lemma SortedConcat(a: seq<Claim>, c: seq<Claim>, middle: nat, end: nat)
    requires SortedDisjoint(a) && SortedDisjoint(c) && Within(a, 0, middle) && Within(c, middle, end)
    ensures SortedDisjoint(a + c)
  {
  }

  lemma {:induction false} CutAllIsSorted(gaps: seq<Claim>, maxSeg: nat)
    requires maxSeg > 0 && Canonical(gaps)
    ensures SortedDisjoint(CutAll(gaps, maxSeg))
  {
    if |gaps| > 0 {
      var n := |gaps| - 1;
      var last := gaps[n];
      CutAllIsSorted(gaps[..n], maxSeg);
      CutIsSorted(last.offset, last.length, maxSeg);
      CutAllWithin(gaps[..n], maxSeg, last.offset);
      CutWithin(last.offset, last.length, maxSeg);
      SortedConcat(CutAll(gaps[..n], maxSeg), Cut(last.offset, last.length, maxSeg), last.offset, last.End());
    }
  }

  lemma RetransmissionIsSorted(s: Session, gaps: seq<Claim>, maxSeg: nat)
    requires maxSeg > 0 && Within(gaps, 0, |s.clientData|) && Canonical(gaps)
    ensures SortedDisjoint(RangesOf(RetransmitSegments(s, gaps, maxSeg)))
  {
    hide CutAll, SortedDisjoint;
    CutAllWithin(gaps, maxSeg, |s.clientData|);
    CutAllIsSorted(gaps, maxSeg);
    assert RangesOf(RetransmitSegments(s, gaps, maxSeg)) == CutAll(gaps, maxSeg);
  }

  /** The last of sorted ranges holds bytes no other one holds, and nothing lies behind it. */
  lemma LastRange(r: seq<Claim>)
    requires SortedDisjoint(r) && |r| > 0
    ensures var last := r[|r| - 1];
            && last.length > 0 && Covers(r, last.offset)
            && (forall i :: 0 <= i < |r| - 1 ==> !r[i].Has(last.offset))
            && (forall x: nat :: Covers(r, x) ==> x < last.End())
  {
    assert r[|r| - 1].Has(r[|r| - 1].offset);
  }

  // ----- what arrives of a pass -----

  /** Any choice of the segments before the last one, in any order and any number of times; then the last. */
  function Arriving(sent: seq<Segment>, pick: seq<nat>): seq<Segment> {
    if |sent| <= 1 then sent
    else Picked(sent, pick) + [sent[|sent| - 1]]
  }

  lemma ArrivingIs(sent: seq<Segment>, pick: seq<nat>)
    ensures |sent| > 1 ==> Arriving(sent, pick) == Picked(sent, pick) + [sent[|sent| - 1]]
    ensures |sent| == 1 ==> Arriving(sent, pick) == [] + [sent[0]]
  {
  }

  function Picked(sent: seq<Segment>, pick: seq<nat>): (p: seq<Segment>)
    requires |sent| > 1
    ensures forall seg :: seg in p ==> seg in sent[..|sent| - 1]
  {
    seq(|pick|, j requires 0 <= j < |pick| => sent[..|sent| - 1][pick[j] % (|sent| - 1)])
  }

  /** One lossy pass to `b` for every pick, the answers reaching `a`; then everything arrives. */
  ghost function LossyThenClean(a: Engine, b: Engine, toB: seq<Segment>, picks: seq<seq<nat>>): (t: Talk)
    requires EngineOk(a) && EngineOk(b)
    ensures EngineOk(t.a) && EngineOk(t.b)
    decreases |picks|
  {
    if |picks| == 0 then Exchange(a, b, toB, 3)
    else
      var ob := DeliverAll(b, Arriving(toB, picks[0]));
      var oa := DeliverAll(a, ob.sent);
      var rest := LossyThenClean(oa.engine, ob.engine, oa.sent, picks[1..]);
      Talk(rest.a, rest.b, rest.inFlight, oa.events + rest.eventsA, ob.events + rest.eventsB)
  }

  lemma {:induction false} QuietLossy(a: Engine, b: Engine, picks: seq<seq<nat>>)
    requires EngineOk(a) && EngineOk(b)
    ensures LossyThenClean(a, b, [], picks) == Talk(a, b, [], [], [])
    decreases |picks|
  {
    hide EngineOk, Exchange;
    if |picks| == 0 {
      Quiet(a, b, 3);
    } else {
      QuietLossy(a, b, picks[1..]);
    }
  }

  // ----- the receiver during a lossy pass -----

  /** Receiving nothing is still receiving. */
  lemma CollectNothing(start: Engine, e: Engine, key: Key, b: Block, got: seq<Claim>)
    requires Collecting(start, e, key, b, got, true)
    ensures Collecting(start, e, key, b, got + [Claim(0, 0)], true)
  {
    forall x: nat ensures Covers(got + [Claim(0, 0)], x) <==> Covers(got, x) {
      CoversSnoc(got, Claim(0, 0), x);
    }
  }

  lemma LessIsNotMore(b: Block, got: seq<Claim>, more: seq<Claim>)
    requires !CoversBlock(b, got + more)
    ensures !CoversBlock(b, got)
  {
    if CoversBlock(b, got) {
      forall x: nat | x < |b.data| ensures Covers(got + more, x) {
        CoversConcat(got, more, x);
      }
    }
  }

  /** Pieces and early acknowledgments in any order: as long as the block is not whole, the receiver
      only collects. */
  lemma {:induction false} MixAll(start: Engine, e: Engine, key: Key, b: Block, got: seq<Claim>, segs: seq<Segment>)
    requires Collecting(start, e, key, b, got, true)
    requires key.engineId != start.config.localEngineId && |start.sessions| < start.config.maxConcurrentSessions
    requires forall seg :: seg in segs ==> IsAck(seg, key) || (RedPiece(key, b, seg) && seg.segmentType == RED_DATA)
    requires !CoversBlock(b, got + RangesOf(segs))
    ensures EngineOk(e)
    ensures Collecting(start, DeliverAll(e, segs).engine, key, b, got + RangesOf(segs), true)
    ensures DeliverAll(e, segs).sent == [] && DeliverAll(e, segs).events == []
    decreases |segs|
  {
    hide Collecting, RedPiece, EngineOk, FromPeer, CoversBlock, ReceiveSegment;
    EngineOfCollecting(start, e, key, b, got, true);
    if |segs| == 0 {
      assert got + RangesOf(segs) == got;
    } else {
      var n := |segs| - 1;
      var before := got + RangesOf(segs[..n]);
      assert got + RangesOf(segs) == before + [RangeOf(segs[n])];
      LessIsNotMore(b, before, [RangeOf(segs[n])]);
      MixAll(start, e, key, b, got, segs[..n]);
      var mid := DeliverAll(e, segs[..n]).engine;
      if IsAck(segs[n], key) {
        hide DeliverOne;
        AckTooEarly(start, mid, key, b, before, segs[n]);
        CollectNothing(start, DeliverOne(mid, segs[n]).engine, key, b, before);
      } else {
        CollectOne(start, mid, key, b, before, true, segs[n]);
        PieceFromPeer(start, mid, key, b, before, true, segs[n]);
      }
    }
  }

  // ----- between two passes -----

  /** The originator has answered its `rounds`-th incomplete report: an acknowledgment and every
      missing byte once more are on their way. */
  ghost predicate Pending(startA: Engine, a: Engine, startB: Engine, e: Engine, key: Key, b: Block, got: seq<Claim>,
                          toB: seq<Segment>, rounds: nat)
  {
    && Originating(startA, a, key, b, rounds) && Collecting(startB, e, key, b, got, true) && !CoversBlock(b, got)
    && |toB| > 1 && IsAck(toB[0], key) && ClosedByCheckpoint(key, b, toB[1..])
    && SortedDisjoint(RangesOf(toB[1..])) && Fills(b, got, RangesOf(toB[1..]))
  }

  ghost predicate Fills(b: Block, got: seq<Claim>, pieces: seq<Claim>) {
    forall x: nat :: Covers(pieces, x) <==> x < |b.data| && !Covers(got, x)
  }

  /** A receiver that can keep a session for the block. */
  ghost predicate Hosts(startB: Engine, key: Key) {
    key.engineId != startB.config.localEngineId && |startB.sessions| < startB.config.maxConcurrentSessions
  }

  /** The originator reads a report: it completes, or repairs as long as the limit allows. */
  lemma AtOriginator(startA: Engine, a: Engine, startB: Engine, e: Engine, key: Key, b: Block, rounds: nat, got: seq<Claim>,
                     report: Segment, upper: nat)
    requires Originating(startA, a, key, b, rounds) && Collecting(startB, e, key, b, got, true) && Hosts(startB, key)
    requires key in e.sessions && IsReport(report, key, e.sessions[key].ranges, upper) && TailClaimed(b, got, upper)
    requires CoversBlock(b, got) || rounds < a.config.maxRetransmissions
    ensures EngineOk(a) && EngineOk(e)
    ensures var oa := DeliverAll(a, [report]);
            if CoversBlock(b, got) then Completed(startA, a, key, oa)
            else
              && Pending(startA, oa.engine, startB, e, key, b, got, oa.sent, rounds + 1)
              && oa.events == [] && oa.engine.diag.retransmissions == a.diag.retransmissions + 1
  {
    hide EngineOk, Collecting, CoversBlock, Claims, IsReport, DeliverOne, TailClaimed;
    OriginatorOk(startA, a, key, b, rounds);
    EngineOfCollecting(startB, e, key, b, got, true);
    CollectedRanges(startB, e, key, b, got);
    var ranges := e.sessions[key].ranges;
    SameCoverage(b, got, ranges);
    SameTail(b, got, ranges, upper);
    DeliverSingle(a, report);
    if CoversBlock(b, got) {
      hide Originating;
      ReportCompletes(startA, a, key, b, rounds, report, ranges, upper);
    } else {
      hide Originating, SortedDisjoint, RetransmitSegments, Missing, ClosedByCheckpoint, IsAck;
      ReportRepairs(startA, a, key, b, rounds, report, ranges, upper);
      RepairIsPending(startA, a, key, b, rounds, got, ranges, upper);
      var oa := DeliverAll(a, [report]);
      assert oa.sent[1..] == RetransmitSegments(BumpRetransmissions(a.sessions[key]), Missing(ranges, upper), a.config.maxSegmentSize);
    }
  }

  lemma SameTail(b: Block, got: seq<Claim>, ranges: seq<Claim>, upper: nat)
    requires TailClaimed(b, got, upper) && forall x: nat :: Covers(ranges, x) <==> Covers(got, x)
    ensures TailClaimed(b, ranges, upper) && upper <= |b.data|
  {
  }

  ghost predicate Completed(startA: Engine, a: Engine, key: Key, oa: Outcome) {
    && oa.events == [SessionComplete(key.sessionNumber)] && |oa.sent| == 1 && IsAck(oa.sent[0], key)
    && oa.engine.sessions == startA.sessions && oa.engine.diag.retransmissions == a.diag.retransmissions
  }

  lemma RepairIsPending(startA: Engine, a: Engine, key: Key, b: Block, rounds: nat, got: seq<Claim>, ranges: seq<Claim>,
                        upper: nat)
    requires Originating(startA, a, key, b, rounds) && a.config.maxSegmentSize > 0
    requires Claims(b, ranges) && TailClaimed(b, ranges, upper) && !CoversBlock(b, ranges)
    requires forall x: nat :: Covers(ranges, x) <==> Covers(got, x)
    ensures Within(Missing(ranges, upper), 0, |a.sessions[key].clientData|)
    ensures var again := RetransmitSegments(BumpRetransmissions(a.sessions[key]), Missing(ranges, upper), a.config.maxSegmentSize);
            && |again| > 0 && ClosedByCheckpoint(key, b, again) && SortedDisjoint(RangesOf(again)) && Fills(b, got, RangesOf(again))
    ensures forall n: nat :: IsAck(AckFor(key.engineId, key.sessionNumber, n), key)
  {
    OriginatorParts(startA, a, key, b, rounds);
    BlockOfOriginator(startA, a, key, b, rounds);
    MissingIsExact(b, ranges, upper);
    hide Originating, SortedDisjoint, RetransmitSegments, Missing, Covers, Canonical, CoversBlock, Claims, TailClaimed;
    var s := BumpRetransmissions(a.sessions[key]);
    SecondPass(key, b, s, Missing(ranges, upper), a.config.maxSegmentSize);
    RetransmissionIsSorted(s, Missing(ranges, upper), a.config.maxSegmentSize);
  }

  // ----- one lossy pass -----

  /** What the picked segments hold is not the last piece: without that the block is not whole. */
  lemma NotYetWhole(b: Block, got: seq<Claim>, pieces: seq<Claim>, picked: seq<Claim>)
    requires SortedDisjoint(pieces) && |pieces| > 0 && Fills(b, got, pieces)
    requires forall c :: c in picked ==> c == Claim(0, 0) || c in pieces[..|pieces| - 1]
    ensures !CoversBlock(b, got + picked)
  {
    LastRange(pieces);
    var x := pieces[|pieces| - 1].offset;
    forall i | 0 <= i < |picked| ensures !picked[i].Has(x) {
      assert picked[i] in picked;
      if picked[i] != Claim(0, 0) {
        var j :| 0 <= j < |pieces| - 1 && pieces[j] == picked[i];
      }
    }
    CoversConcat(got, picked, x);
  }

  /** Nothing is missing behind the last piece. */
  lemma NothingBehind(b: Block, got: seq<Claim>, pieces: seq<Claim>, more: seq<Claim>)
    requires SortedDisjoint(pieces) && |pieces| > 0 && Fills(b, got, pieces) && pieces[|pieces| - 1].End() <= |b.data|
    ensures TailClaimed(b, got + more, pieces[|pieces| - 1].End())
  {
    LastRange(pieces);
    forall x: nat | pieces[|pieces| - 1].End() <= x < |b.data| ensures Covers(got + more, x) {
      CoversConcat(got, more, x);
    }
  }

  lemma PickedRanges(toB: seq<Segment>, picked: seq<Segment>, key: Key)
    requires |toB| > 1 && IsAck(toB[0], key) && forall seg :: seg in picked ==> seg in toB[..|toB| - 1]
    ensures var pieces := RangesOf(toB[1..]);
            forall c :: c in RangesOf(picked) ==> c == Claim(0, 0) || c in pieces[..|pieces| - 1]
  {
    var pieces := RangesOf(toB[1..]);
    forall c | c in RangesOf(picked) ensures c == Claim(0, 0) || c in pieces[..|pieces| - 1] {
      var j :| 0 <= j < |picked| && RangeOf(picked[j]) == c;
      assert picked[j] in picked;
      var i :| 0 <= i < |toB| - 1 && toB[i] == picked[j];
      if i > 0 { assert pieces[..|pieces| - 1][i - 1] == c; }
    }
  }

  lemma PickedKinds(toB: seq<Segment>, picked: seq<Segment>, key: Key, b: Block)
    requires |toB| > 1 && IsAck(toB[0], key) && ClosedByCheckpoint(key, b, toB[1..])
    requires forall seg :: seg in picked ==> seg in toB[..|toB| - 1]
    ensures forall seg :: seg in picked ==> IsAck(seg, key) || (RedPiece(key, b, seg) && seg.segmentType == RED_DATA)
    ensures var last := toB[|toB| - 1]; RedPiece(key, b, last) && HasCheckpoint(last.segmentType)
  {
    hide RedPiece, IsAck;
    forall seg | seg in picked ensures IsAck(seg, key) || (RedPiece(key, b, seg) && seg.segmentType == RED_DATA) {
      var i :| 0 <= i < |toB| - 1 && toB[i] == seg;
      if i > 0 { assert toB[1..][i - 1] == seg; }
    }
    assert toB[1..][|toB| - 2] == toB[|toB| - 1];
  }

  /** Everything of a lossy pass but its checkpoint. */
  lemma LossyMix(startA: Engine, a: Engine, startB: Engine, e: Engine, key: Key, b: Block, got: seq<Claim>, toB: seq<Segment>,
                 rounds: nat, pick: seq<nat>)
    requires Pending(startA, a, startB, e, key, b, got, toB, rounds) && Hosts(startB, key)
    ensures EngineOk(e) && |toB| > 1
    ensures var o := DeliverAll(e, Picked(toB, pick));
            && Collecting(startB, o.engine, key, b, got + RangesOf(Picked(toB, pick)), true) && o.sent == [] && o.events == []
  {
    hide *;
    PendingPieces(startA, a, startB, e, key, b, got, toB, rounds);
    var picked := Picked(toB, pick);
    HostParts(startB, key);
    PickedRanges(toB, picked, key);
    PickedKinds(toB, picked, key, b);
    LastOfRanges(toB);
    NotYetWhole(b, got, RangesOf(toB[1..]), RangesOf(picked));
    MixAll(startB, e, key, b, got, picked);
  }

  /** Its checkpoint: a red piece, and nothing is missing behind it. */
  lemma LossyLast(startA: Engine, a: Engine, startB: Engine, e: Engine, key: Key, b: Block, got: seq<Claim>, toB: seq<Segment>,
                  rounds: nat, more: seq<Claim>)
    requires Pending(startA, a, startB, e, key, b, got, toB, rounds)
    ensures |toB| > 1
    ensures var last := toB[|toB| - 1];
            && RedPiece(key, b, last) && HasCheckpoint(last.segmentType) && TailClaimed(b, got + more, RangeOf(last).End())
  {
    hide *;
    PendingPieces(startA, a, startB, e, key, b, got, toB, rounds);
    PickedKinds(toB, [], key, b);
    PieceEnds(key, b, toB[|toB| - 1]);
    LastOfRanges(toB);
    NothingBehind(b, got, RangesOf(toB[1..]), more);
  }

  lemma SilentPrefix(e: Engine, xs: seq<Segment>, ys: seq<Segment>)
    requires EngineOk(e) && DeliverAll(e, xs).sent == [] && DeliverAll(e, xs).events == []
    ensures DeliverAll(e, xs + ys) == DeliverAll(DeliverAll(e, xs).engine, ys)
  {
    hide *;
    DeliverConcat(e, xs, ys);
    var two := DeliverAll(DeliverAll(e, xs).engine, ys);
    assert [] + two.sent == two.sent && [] + two.events == two.events;
  }

  lemma CheckpointAlone(startB: Engine, e: Engine, key: Key, b: Block, got: seq<Claim>, last: Segment)
    requires Collecting(startB, e, key, b, got, true) && Hosts(startB, key)
    requires RedPiece(key, b, last) && HasCheckpoint(last.segmentType)
    ensures EngineOk(e)
    ensures var ob := DeliverAll(e, [last]);
            && ob.events == [] && |ob.sent| == 1 && Collecting(startB, ob.engine, key, b, got + RangesOf([last]), true)
            && key in ob.engine.sessions && IsReport(ob.sent[0], key, ob.engine.sessions[key].ranges, RangeOf(last).End())
  {
    hide *;
    HostParts(startB, key);
    OnePass(startB, e, key, b, got, true, [], last);
    assert [] + [last] == [last];
  }

  /** The receiver's half of a lossy pass: it has what it had and what arrived, and sends one report on
      all of that, with nothing missing behind it. */
  lemma LossyPass(startA: Engine, a: Engine, startB: Engine, e: Engine, key: Key, b: Block, got: seq<Claim>, toB: seq<Segment>,
                  rounds: nat, pick: seq<nat>) returns (more: seq<Claim>, upper: nat)
    requires Pending(startA, a, startB, e, key, b, got, toB, rounds) && Hosts(startB, key)
    ensures EngineOk(e)
    ensures var ob := DeliverAll(e, Arriving(toB, pick));
            && ob.events == [] && |ob.sent| == 1 && Collecting(startB, ob.engine, key, b, more, true)
            && key in ob.engine.sessions && IsReport(ob.sent[0], key, ob.engine.sessions[key].ranges, upper)
            && TailClaimed(b, more, upper)
    ensures more == got + RangesOf(Arriving(toB, pick))
  {
    hide *;
    PendingPieces(startA, a, startB, e, key, b, got, toB, rounds);
    var picked, last := Picked(toB, pick), toB[|toB| - 1];
    ArrivingIs(toB, pick);
    HostParts(startB, key);
    LossyMix(startA, a, startB, e, key, b, got, toB, rounds, pick);
    var rest := RangesOf(picked) + RangesOf([last]);
    LossyLast(startA, a, startB, e, key, b, got, toB, rounds, rest);
    CheckpointAlone(startB, DeliverAll(e, picked).engine, key, b, got + RangesOf(picked), last);
    SilentPrefix(e, picked, [last]);
    more := got + rest;
    assert more == got + RangesOf(picked) + RangesOf([last]);
    RangesJoin(picked, [last]);
    upper := RangeOf(last).End();
  }

  lemma RangesJoin(xs: seq<Segment>, ys: seq<Segment>)
    ensures RangesOf(xs + ys) == RangesOf(xs) + RangesOf(ys)
  {
  }

  lemma PendingPieces(startA: Engine, a: Engine, startB: Engine, e: Engine, key: Key, b: Block, got: seq<Claim>,
                      toB: seq<Segment>, rounds: nat)
    requires Pending(startA, a, startB, e, key, b, got, toB, rounds)
    ensures Collecting(startB, e, key, b, got, true) && !CoversBlock(b, got)
    ensures |toB| > 1 && IsAck(toB[0], key) && ClosedByCheckpoint(key, b, toB[1..])
    ensures SortedDisjoint(RangesOf(toB[1..])) && Fills(b, got, RangesOf(toB[1..]))
  {
  }

  lemma HostParts(startB: Engine, key: Key)
    requires Hosts(startB, key)
    ensures key.engineId != startB.config.localEngineId && |startB.sessions| < startB.config.maxConcurrentSessions
  {
  }

  lemma LastOfRanges(toB: seq<Segment>)
    requires |toB| > 1
    ensures var pieces := RangesOf(toB[1..]); |pieces| > 0 && pieces[|pieces| - 1] == RangeOf(toB[|toB| - 1])
  {
  }

  // ----- the end -----

  ghost predicate SettledWithin(startA: Engine, a: Engine, startB: Engine, key: Key, b: Block, extra: nat, t: Talk) {
    && t.inFlight == []
    && t.eventsA == [SessionComplete(key.sessionNumber)]
    && |t.eventsB| == 1 && t.eventsB[0].Delivered? && t.eventsB[0].key == key && t.eventsB[0].red && t.eventsB[0].data == b.data
    && t.a.sessions == startA.sessions && t.b.sessions == startB.sessions
    && a.diag.retransmissions <= t.a.diag.retransmissions <= a.diag.retransmissions + extra
  }

  /** After completion only the acknowledgment is left, and it always arrives. */
  lemma AckEnds(a: Engine, startB: Engine, e: Engine, key: Key, b: Block, got: seq<Claim>, toB: seq<Segment>, picks: seq<seq<nat>>)
    requires EngineOk(a) && Collecting(startB, e, key, b, got, true) && Hosts(startB, key) && CoversBlock(b, got)
    requires |toB| == 1 && IsAck(toB[0], key)
    ensures EngineOk(e)
    ensures var t := LossyThenClean(a, e, toB, picks);
            && t.inFlight == [] && t.a == a && t.b.sessions == startB.sessions && t.eventsA == []
            && |t.eventsB| == 1 && t.eventsB[0].Delivered? && t.eventsB[0].key == key && t.eventsB[0].red && t.eventsB[0].data == b.data
  {
    hide EngineOk, Collecting, CoversBlock, IsAck, DeliverOne, Exchange;
    EngineOfCollecting(startB, e, key, b, got, true);
    AckCloses(startB, e, key, b, got, toB[0]);
    assert toB == [toB[0]];
    DeliverSingle(e, toB[0]);
    var after := DeliverAll(e, toB).engine;
    assert DeliverAll(a, []) == Outcome(a, [], []);
    if |picks| == 0 {
      OneRound(a, e, toB, 2);
      Quiet(a, after, 2);
    } else {
      QuietLossy(a, after, picks[1..]);
    }
  }

  /** Nothing more is lost: the pass on its way fills the block. */
  lemma CleanEnd(startA: Engine, a: Engine, startB: Engine, e: Engine, key: Key, b: Block, got: seq<Claim>, toB: seq<Segment>, rounds: nat)
    requires Pending(startA, a, startB, e, key, b, got, toB, rounds) && Hosts(startB, key)
    ensures EngineOk(a) && EngineOk(e)
    ensures SettledWithin(startA, a, startB, key, b, 0, Exchange(a, e, toB, 3))
  {
    hide EngineOk, Collecting, Originating, CoversBlock, IsReport, DeliverAll, RedPiece, SortedDisjoint, ClosedByCheckpoint,
      IsAck, Exchange, RangesOf, Covers;
    OriginatorOk(startA, a, key, b, rounds);
    EngineOfCollecting(startB, e, key, b, got, true);
    assert [toB[0]] + toB[1..] == toB;
    var mid := SkipAck(startB, e, key, b, got, toB[0], toB[1..]);
    var more, upper := Refill(startB, mid, key, b, got, toB[1..]);
    var ob := DeliverAll(e, toB);
    assert ob.sent == [ob.sent[0]];
    OneRound(a, e, toB, 2);
    Finish(startA, a, startB, ob.engine, key, b, rounds, more, ob.sent[0], upper, 1);
  }

  /** From any incomplete report on. */
  lemma {:induction false} RepairEnds(startA: Engine, a: Engine, startB: Engine, e: Engine, key: Key, b: Block, got: seq<Claim>,
                                      toB: seq<Segment>, rounds: nat, picks: seq<seq<nat>>)
    requires Pending(startA, a, startB, e, key, b, got, toB, rounds) && Hosts(startB, key)
    requires rounds + |picks| <= a.config.maxRetransmissions
    ensures EngineOk(a) && EngineOk(e)
    ensures SettledWithin(startA, a, startB, key, b, |picks|, LossyThenClean(a, e, toB, picks))
    decreases |picks|, 0
  {
    hide EngineOk, Collecting, CoversBlock, IsReport, DeliverAll, Exchange, Arriving, TailClaimed, Hosts;
    PendingParts(startA, a, startB, e, key, b, got, toB, rounds);
    hide Pending;
    if |picks| == 0 {
      CleanEnd(startA, a, startB, e, key, b, got, toB, rounds);
    } else {
      var more, upper := LossyPass(startA, a, startB, e, key, b, got, toB, rounds, picks[0]);
      AfterPass(startA, a, startB, DeliverAll(e, Arriving(toB, picks[0])), key, b, rounds, more, upper, picks[1..]);
    }
  }

  lemma PendingParts(startA: Engine, a: Engine, startB: Engine, e: Engine, key: Key, b: Block, got: seq<Claim>,
                     toB: seq<Segment>, rounds: nat)
    requires Pending(startA, a, startB, e, key, b, got, toB, rounds)
    ensures EngineOk(a) && EngineOk(e) && a.config == startA.config && e.config == startB.config
    ensures Originating(startA, a, key, b, rounds)
  {
  }

  /** From the report of any pass on. */
  lemma {:induction false} AfterPass(startA: Engine, a: Engine, startB: Engine, ob: Outcome, key: Key, b: Block, rounds: nat,
                                     more: seq<Claim>, upper: nat, picks: seq<seq<nat>>)
    requires Originating(startA, a, key, b, rounds) && Hosts(startB, key)
    requires CoversBlock(b, more) || rounds + 1 + |picks| <= a.config.maxRetransmissions
    requires Collecting(startB, ob.engine, key, b, more, true) && |ob.sent| == 1 && key in ob.engine.sessions
    requires IsReport(ob.sent[0], key, ob.engine.sessions[key].ranges, upper) && TailClaimed(b, more, upper)
    ensures EngineOk(a) && EngineOk(ob.engine)
    ensures var oa := DeliverAll(a, ob.sent);
            var rest := LossyThenClean(oa.engine, ob.engine, oa.sent, picks);
            SettledWithin(startA, a, startB, key, b, |picks| + 1,
                          Talk(rest.a, rest.b, rest.inFlight, oa.events + rest.eventsA, rest.eventsB))
    decreases |picks|, 1
  {
    hide EngineOk, Collecting, CoversBlock, IsReport, DeliverAll, Exchange, TailClaimed, Originating, Pending, Hosts, LossyThenClean, IsAck;
    assert ob.sent == [ob.sent[0]];
    AtOriginator(startA, a, startB, ob.engine, key, b, rounds, more, ob.sent[0], upper);
    var oa := DeliverAll(a, ob.sent);
    if CoversBlock(b, more) {
      AckEnds(oa.engine, startB, ob.engine, key, b, more, oa.sent, picks);
    } else {
      PendingParts(startA, oa.engine, startB, ob.engine, key, b, more, oa.sent, rounds + 1);
      OriginatorOk(startA, a, key, b, rounds);
      RepairEnds(startA, oa.engine, startB, ob.engine, key, b, more, oa.sent, rounds + 1, picks);
    }
  }

  /** Repair under repeated loss. In each of up to `maxRetransmissions` passes any segments but the
      checkpoint may be lost, reordered and repeated, acknowledgments included; after that everything
      arrives. Then both ends finish, the receiver with exactly the block, after no more
      retransmissions than there were lossy passes. */
  lemma RepairSurvivesLoss(a: Engine, b: Engine, data: seq<byte>, picks: seq<seq<nat>>)
    requires EngineOk(a) && EngineOk(b) && a.config.localEngineId != b.config.localEngineId && !Full(a) && !Full(b)
    requires Key(a.config.localEngineId, a.sessionCounter + 1) !in b.sessions
    requires |picks| <= a.config.maxRetransmissions
    ensures var started := StartSession(a, data, true).0;
            && EngineOk(started.engine)
            && SettledWithin(a, started.engine, b, Key(a.config.localEngineId, a.sessionCounter + 1), Block(data, true), |picks|,
                             LossyThenClean(started.engine, b, started.sent, picks))
  {
    hide Collecting, Originating, CoversBlock, RedPiece, DeliverAll, Exchange, SegmentBlock, StartSession, EngineOk, IsReport,
      TailClaimed, ClosedByCheckpoint;
    var block := Block(data, true);
    var key := Key(a.config.localEngineId, a.sessionCounter + 1);
    OkParts(a);
    Started(a, b, data);
    var started := StartSession(a, data, true).0;
    OriginatorOk(a, started.engine, key, block, 0);
    if |picks| == 0 {
      NoLossNoRepair(a, b, data);
    } else {
      PassParts(key, block, started.sent);
      FirstLossyPass(b, b, key, block, [], false, started.sent, picks[0]);
      var ob := DeliverAll(b, Arriving(started.sent, picks[0]));
      AfterPass(a, started.engine, b, ob, key, block, 0, [] + RangesOf(Arriving(started.sent, picks[0])), |data|, picks[1..]);
    }
  }

  lemma NoTail(b: Block, got: seq<Claim>)
    ensures TailClaimed(b, got, |b.data|)
  {
  }

  /** A pass over the whole block, first or again: its checkpoint closes the block, so the report covers
      all of it. */
  lemma FirstLossyPass(startB: Engine, e: Engine, key: Key, block: Block, got: seq<Claim>, sawEob: bool, sent: seq<Segment>,
                       pick: seq<nat>)
    requires Collecting(startB, e, key, block, got, sawEob) && Hosts(startB, key) && ClosedByCheckpoint(key, block, sent)
    requires |sent| > 0 && HasEob(sent[|sent| - 1].segmentType)
    ensures EngineOk(e)
    ensures var ob := DeliverAll(e, Arriving(sent, pick));
            var more := got + RangesOf(Arriving(sent, pick));
            && ob.events == [] && |ob.sent| == 1 && Collecting(startB, ob.engine, key, block, more, true)
            && key in ob.engine.sessions && IsReport(ob.sent[0], key, ob.engine.sessions[key].ranges, |block.data|)
            && TailClaimed(block, more, |block.data|)
  {
    hide *;
    HostParts(startB, key);
    PassParts(key, block, sent);
    ArrivingIs(sent, pick);
    var last := sent[|sent| - 1];
    var before := if |sent| <= 1 then [] else Picked(sent, pick);
    OnePass(startB, e, key, block, got, sawEob, before, last);
    PieceEnds(key, block, last);
    NoTail(block, got + RangesOf(before + [last]));
  }
}
