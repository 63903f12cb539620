/** Two LTP engines over a network that may lose, duplicate and reorder segments, with timers that
    may expire at any moment. The network is the set of everything sent so far: delivering any
    element at any time, any number of times or never, is loss, duplication and reordering. */
module LtpSystem {
  import opened Bits
  import opened Ranges
  import opened LtpSegment
  import opened LtpEngineSpec
  import opened LtpEngineInvariant

  /** What an originator was asked to send. */
  datatype Block = Block(data: seq<byte>, red: bool)

  /** What the application was told. A delivery notes whether its session had seen EOB, what it
      tracked, and what had really been taken in since the session was created. */
  datatype LogEntry =
    | DeliveryLogged(key: Key, red: bool, sawEob: bool, data: seq<byte>, tracked: seq<Claim>, taken: seq<Claim>)
    | CompletionLogged(completed: Key)

  /** The two engines, everything each has sent, and history: the blocks, the byte ranges ever taken
      in for a key, those taken in since its present receiver session was created, the live receiver
      sessions that have seen EOB, the retransmission rounds made for each block, and the log. */
  datatype System = System(engines: seq<Engine>, sent: seq<set<Segment>>, blocks: map<Key, Block>,
                           arrivals: map<Key, seq<Claim>>, live: map<Key, seq<Claim>>, eob: set<Key>,
                           rounds: map<Key, nat>, log: seq<LogEntry>)

  /** The part of the history that tells what a receiver session has seen. */
  datatype Marks = Marks(eob: set<Key>, live: map<Key, seq<Claim>>)

  datatype Action =
    | Start(who: nat, data: seq<byte>, reliable: bool)
    | Deliver(who: nat, seg: Segment)
    | Expire(who: nat, event: TimerEvent)
    | Cancel(who: nat, key: Key, reason: byte)

  function IdOf(sys: System, i: nat): nat
    requires i < |sys.engines|
  {
    sys.engines[i].config.localEngineId
  }

  function Arrived(sys: System, key: Key): seq<Claim> {
    if key in sys.arrivals then sys.arrivals[key] else []
  }

  function LiveIn(live: map<Key, seq<Claim>>, key: Key): seq<Claim> {
    if key in live then live[key] else []
  }

  function RoundsOf(sys: System, key: Key): nat {
    if key in sys.rounds then sys.rounds[key] else 0
  }

  function Now(sys: System): Marks { Marks(sys.eob, sys.live) }

  predicate Shaped(sys: System) {
    && |sys.engines| == 2 && |sys.sent| == 2
    && IdOf(sys, 0) != IdOf(sys, 1)
  }

  predicate Enabled(sys: System, a: Action)
    requires Shaped(sys)
  {
    a.who < 2 && (a.Deliver? ==> a.seg in sys.sent[1 - a.who])
  }

  // ----- invariants -----

  /** A stored session against the block it belongs to. `i` is the engine that stores it. */
  ghost predicate SessionFits(sys: System, i: nat, key: Key, s: Session)
    requires Shaped(sys) && i < 2
  {
    && key in sys.blocks && key.engineId in {IdOf(sys, 0), IdOf(sys, 1)}
    && var b := sys.blocks[key];
       if key.engineId == IdOf(sys, i) then s.clientData == b.data && b.red
       else ReceiverFits(b, s, LiveIn(sys.live, key), key in sys.eob)
  }

  /** Data safety of a receiver session: the buffer holds the originator's bytes where the tracker
      says so and zero elsewhere, the tracker stays within the block and knows exactly what was taken
      in since the session was created, and the length is known exactly when EOB was seen. */
  ghost predicate ReceiverFits(b: Block, s: Session, taken: seq<Claim>, sawEob: bool) {
    && |s.clientData| <= |b.data|
    && (forall x: nat :: x < |s.clientData| ==> s.clientData[x] == if Covers(s.ranges, x) then b.data[x] else 0)
    && Within(s.ranges, 0, |b.data|)
    && (forall x: nat :: Covers(s.ranges, x) <==> Covers(taken, x))
    && s.totalDataLength == (if sawEob then |b.data| else 0)
  }

  /** A segment as the engines build it: no extensions, checkpoint fields exactly on checkpoints. */
  predicate WireReady(seg: Segment) {
    && ContentFits(seg.segmentType, seg.content) && IsValidType(seg.segmentType)
    && seg.version == 0 && seg.headerExtCount == 0 && seg.trailerExtCount == 0
    && seg.headerExtensions == [] && seg.trailerExtensions == []
    && (IsData(seg.segmentType) ==>
          && seg.content.length == |seg.content.data|
          && (seg.content.checkpointSerial.Some? <==> HasCheckpoint(seg.segmentType))
          && (seg.content.reportSerial.Some? <==> HasCheckpoint(seg.segmentType)))
    && (IsCancelAck(seg.segmentType) ==> seg.content.reasonCode == 0)
  }

  /** A segment on its way, sent by engine `i`. */
  ghost predicate SegmentFits(sys: System, i: nat, seg: Segment)
    requires Shaped(sys) && i < 2
  {
    && WireReady(seg)
    && (IsData(seg.segmentType) ==>
          seg.engineId == IdOf(sys, i) && KeyOf(seg) in sys.blocks && DataFits(sys.blocks[KeyOf(seg)], seg))
    && (seg.segmentType == REPORT_SEGMENT ==>
          && seg.engineId == IdOf(sys, 1 - i) && KeyOf(seg) in sys.blocks
          && ReportFits(sys.blocks[KeyOf(seg)], Arrived(sys, KeyOf(seg)), seg.content))
  }

  ghost predicate DataFits(b: Block, seg: Segment)
    requires seg.content.DataContent?
  {
    var c := seg.content;
    && (IsRed(seg.segmentType) <==> b.red)
    && c.length == |c.data| && c.offset + c.length <= |b.data|
    && c.data == b.data[c.offset..c.offset + c.length]
    && (HasEob(seg.segmentType) ==> c.offset + c.length == |b.data|)
  }

  /** Every claim in flight covers only bytes that were received. */
  ghost predicate ReportFits(b: Block, arrived: seq<Claim>, c: Content)
    requires c.ReportContent?
  {
    && c.upperBound <= |b.data|
    && (forall x: nat :: Covers(c.claims, x) ==> Covers(arrived, x))
  }

  /** What the application was told is true. */
  ghost predicate EntryFits(sys: System, entry: LogEntry) {
    match entry
    case DeliveryLogged(key, red, sawEob, data, tracked, taken) =>
      && key in sys.blocks && AllArrived(sys, key, taken)
      && (if red then data == (if sawEob then sys.blocks[key].data else [])
          else GreenFits(sys.blocks[key], data, tracked, taken))
    case CompletionLogged(key) =>
      key in sys.blocks && forall x: nat :: x < |sys.blocks[key].data| ==> Covers(Arrived(sys, key), x)
  }

  ghost predicate AllArrived(sys: System, key: Key, taken: seq<Claim>) {
    forall x: nat :: Covers(taken, x) ==> Covers(Arrived(sys, key), x)
  }

  /** A green delivery has the length of the block; it holds every byte taken in and is zero elsewhere. */
  ghost predicate GreenFits(b: Block, data: seq<byte>, tracked: seq<Claim>, taken: seq<Claim>) {
    && |data| == |b.data|
    && (forall x: nat :: x < |data| ==> data[x] == if Covers(tracked, x) then b.data[x] else 0)
    && (forall x: nat :: Covers(tracked, x) <==> Covers(taken, x))
  }

  ghost predicate SessionsFit(sys: System, i: nat)
    requires Shaped(sys) && i < 2
  {
    forall k :: k in sys.engines[i].sessions ==> SessionFits(sys, i, k, sys.engines[i].sessions[k])
  }

  ghost predicate SentFits(sys: System, i: nat)
    requires Shaped(sys) && i < 2
  {
    forall seg :: seg in sys.sent[i] ==> SegmentFits(sys, i, seg)
  }

  /** Blocks belong to numbers their engine has already used. */
  ghost predicate BlocksFit(sys: System)
    requires Shaped(sys)
  {
    forall k :: k in sys.blocks ==>
      || (k.engineId == IdOf(sys, 0) && k.sessionNumber <= sys.engines[0].sessionCounter)
      || (k.engineId == IdOf(sys, 1) && k.sessionNumber <= sys.engines[1].sessionCounter)
  }

  /** Only stored receiver sessions carry an EOB mark. */
  ghost predicate EobFits(sys: System)
    requires Shaped(sys)
  {
    forall k :: k in sys.eob ==> Receiving(sys.engines, k)
  }

  /** What a live session has taken in has arrived. */
  ghost predicate LiveFits(sys: System) {
    forall k :: k in sys.live ==> AllArrived(sys, k, sys.live[k])
  }

  ghost predicate LogFits(sys: System) {
    forall j :: 0 <= j < |sys.log| ==> EntryFits(sys, sys.log[j])
  }

  ghost predicate Inv(sys: System) {
    && Shaped(sys)
    && EngineOk(sys.engines[0]) && EngineOk(sys.engines[1])
    && SessionsFit(sys, 0) && SessionsFit(sys, 1)
    && SentFits(sys, 0) && SentFits(sys, 1)
    && BlocksFit(sys) && EobFits(sys) && LiveFits(sys) && LogFits(sys)
  }

  // ----- steps -----

  /** Everything in flight can be handled: no handler is ever handed a segment it has no defined
      behaviour for. */
  lemma InFlightIsReceivable(sys: System, i: nat, seg: Segment)
    requires Inv(sys) && i < 2 && seg in sys.sent[1 - i]
    ensures FromPeer(sys.engines[i], seg)
  {
    var e := sys.engines[i];
    assert SegmentFits(sys, 1 - i, seg);
    if seg.segmentType == REPORT_SEGMENT {
      var key := Key(e.config.localEngineId, seg.sessionNumber);
      assert key == KeyOf(seg);
      if key in e.sessions { assert SessionFits(sys, i, key, e.sessions[key]); }
    }
    if seg.segmentType == REPORT_ACK && KeyOf(seg) in e.sessions {
      assert SessionOk(e, KeyOf(seg), e.sessions[KeyOf(seg)]);
    }
  }

  function Handle(sys: System, a: Action): Outcome
    requires Shaped(sys) && a.who < 2 && sys.engines[a.who].config.maxSegmentSize > 0
    requires a.Deliver? ==> Receivable(sys.engines[a.who], a.seg)
  {
    var e := sys.engines[a.who];
    match a
    case Start(_, data, reliable) => StartSession(e, data, reliable).0
    case Deliver(_, seg) => ReceiveSegment(e, seg)
    case Expire(_, event) => TimerExpired(e, event)
    case Cancel(_, key, reason) => CancelSession(e, key, reason)
  }

  function NextBlocks(sys: System, a: Action): map<Key, Block>
    requires Shaped(sys) && a.who < 2
  {
    var e := sys.engines[a.who];
    if a.Start? && !Full(e) then
      sys.blocks[Key(e.config.localEngineId, e.sessionCounter + 1) := Block(a.data, a.reliable)]
    else sys.blocks
  }

  /** Whether the action is the intake of a data segment. */
  predicate TakesData(sys: System, a: Action)
    requires Shaped(sys) && a.who < 2
  {
    a.Deliver? && IsData(a.seg.segmentType) && a.seg.content.DataContent? && Accepts(sys.engines[a.who], KeyOf(a.seg))
  }

  function NextArrivals(sys: System, a: Action): map<Key, seq<Claim>>
    requires Shaped(sys) && a.who < 2
  {
    if TakesData(sys, a) then
      sys.arrivals[KeyOf(a.seg) := Arrived(sys, KeyOf(a.seg)) + [Claim(a.seg.content.offset, a.seg.content.length)]]
    else sys.arrivals
  }

  /** What a session has taken in so far; a new one has taken in nothing. */
  function TakenBefore(sys: System, i: nat, key: Key): seq<Claim>
    requires Shaped(sys) && i < 2
  {
    if key in sys.engines[i].sessions then LiveIn(sys.live, key) else []
  }

  function NextLive(sys: System, a: Action): map<Key, seq<Claim>>
    requires Shaped(sys) && a.who < 2
  {
    if TakesData(sys, a) then
      sys.live[KeyOf(a.seg) := TakenBefore(sys, a.who, KeyOf(a.seg)) + [Claim(a.seg.content.offset, a.seg.content.length)]]
    else sys.live
  }

  /** The marks after the action, before sessions that are gone lose theirs. */
  function Marked(sys: System, a: Action): Marks
    requires Shaped(sys) && a.who < 2
  {
    Marks(if TakesData(sys, a) && HasEob(a.seg.segmentType) then sys.eob + {KeyOf(a.seg)} else sys.eob, NextLive(sys, a))
  }

  /** The blocks a list of segments carries data of. */
  function DataKeys(sent: seq<Segment>): set<Key> {
    set seg | seg in sent && IsData(seg.segmentType) :: KeyOf(seg)
  }

  /** Data sent by anything but a start is a retransmission round for its block. */
  function NextRounds(sys: System, a: Action, sent: seq<Segment>): map<Key, nat> {
    var again := if a.Start? then {} else DataKeys(sent);
    map k | k in sys.rounds.Keys + again :: RoundsOf(sys, k) + if k in again then 1 else 0
  }

  function LogOf(id: nat, marks: Marks, event: Event): seq<LogEntry> {
    match event
    case Delivered(key, red, data, tracked) =>
      [DeliveryLogged(key, red, key in marks.eob, data, tracked, LiveIn(marks.live, key))]
    case SessionComplete(number) => [CompletionLogged(Key(id, number))]
    case SessionFailed(_, _) => []
  }

  function Logged(id: nat, marks: Marks, events: seq<Event>): seq<LogEntry> {
    if |events| == 0 then [] else LogOf(id, marks, events[0]) + Logged(id, marks, events[1..])
  }

  /** A receiver session for this key is stored: at the engine the key does not belong to. */
  predicate Receiving(engines: seq<Engine>, k: Key)
    requires |engines| == 2
  {
    || (k.engineId != engines[0].config.localEngineId && k in engines[0].sessions)
    || (k.engineId != engines[1].config.localEngineId && k in engines[1].sessions)
  }

  function Next(sys: System, a: Action): System
    requires Shaped(sys) && a.who < 2 && sys.engines[a.who].config.maxSegmentSize > 0
    requires a.Deliver? ==> Receivable(sys.engines[a.who], a.seg)
  {
    var o := Handle(sys, a);
    var engines := sys.engines[a.who := o.engine];
    var marked := Marked(sys, a);
    System(engines,
           sys.sent[a.who := sys.sent[a.who] + (set seg | seg in o.sent)],
           NextBlocks(sys, a),
           NextArrivals(sys, a),
           marked.live,
           (set k | k in marked.eob && Receiving(engines, k)),
           NextRounds(sys, a, o.sent),
           sys.log + Logged(IdOf(sys, a.who), marked, o.events))
  }

  /** One step of a run: an action that is not enabled changes nothing. */
  function Step(sys: System, a: Action): (after: System)
    requires Inv(sys)
  {
    if Enabled(sys, a) then
      (if a.Deliver? then InFlightIsReceivable(sys, a.who, a.seg); Next(sys, a) else Next(sys, a))
    else sys
  }

  function Initial(c0: Config, c1: Config): System {
    var d := Diagnostics(0, 0, 0, 0, 0, 0, 0, 0, 0, 0, 0, 0, 0, 0, 0, 0);
    System([Engine(c0, 0, map[], d), Engine(c1, 0, map[], d)], [{}, {}], map[], map[], map[], {}, map[], [])
  }

  lemma InitialInv(c0: Config, c1: Config)
    requires c0.localEngineId != c1.localEngineId
    requires c0.maxSegmentSize > 0 && c1.maxSegmentSize > 0
    requires c0.maxRetransmissions < 256 && c1.maxRetransmissions < 256
    ensures Inv(Initial(c0, c1))
  {
    hide EngineOk, SegmentFits, SessionFits, EntryFits, Receiving;
    InitialEngineOk(c0);
    InitialEngineOk(c1);
  }
}
