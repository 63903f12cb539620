/** The single-producer, single-consumer ring buffer of include/qpsk_b200/spsc_queue.h: the atomic
    steps of its operations, and every interleaving of them. */
module SpscQueues {

  /** A slot is vacant before it is first written and after its item has been moved out. */
  datatype Slot<T> = Vacant | Holding(item: T)

  /** Where the producer is inside `try_push`. */
  datatype Producer<T> =
    | Idle
    | HeadLoaded(item: T, h: nat)
    | RoomSeen(item: T, h: nat, next: nat)
    | Written(item: T, next: nat)

  /** `try_pop` itself, the fast path of `pop_wait`, or its attempt after the wait. */
  datatype Mode = Plain | FastPath | AfterWait

  /** Where the consumer is inside `try_pop` or `pop_wait`. */
  datatype Consumer<T> =
    | Ready
    | TailLoaded(mode: Mode, t: nat)
    | ItemSeen(t: nat)
    | Taken(item: T, next: nat)
    | Waiting
    | WaitHeadLoaded(h: nat)
    | Signaled

  /** What an operation turned out to be, logged at the step that decides it. */
  datatype Op<T> = Push(item: T) | PushRefused | Pop(item: T) | PopRefused

  /** The shared fields, the two threads, and history: all items pushed, all popped, all decided operations. */
  datatype State<T> = State(capacity: nat, buffer: seq<Slot<T>>, head: nat, tail: nat,
                            producer: Producer<T>, consumer: Consumer<T>,
                            pushed: seq<T>, popped: seq<T>, log: seq<Op<T>>)

  datatype Action<T> = BeginPush(item: T) | ProducerStep | BeginTryPop | BeginPopWait | ConsumerStep | TimeOut

  // ----- invariant -----

  /** The content of the slot for position `i`, counted from the first item ever pushed. */
  function Expected<T>(s: State<T>, i: nat): Slot<T> {
    if i < |s.pushed| then (if i == |s.popped| && s.consumer.Taken? then Vacant else Holding(s.pushed[i]))
    else if i == |s.pushed| && s.producer.Written? then Holding(s.producer.item)
    else Vacant
  }

  ghost predicate SlotsFit<T>(s: State<T>)
    requires s.capacity > 0 && |s.buffer| == s.capacity
  {
    forall i: nat :: |s.popped| <= i < |s.popped| + s.capacity ==> s.buffer[i % s.capacity] == Expected(s, i)
  }

  ghost predicate Counters<T>(s: State<T>) {
    && s.capacity > 0 && |s.buffer| == s.capacity
    && |s.popped| <= |s.pushed| < |s.popped| + s.capacity
    && s.head == |s.pushed| % s.capacity && s.tail == |s.popped| % s.capacity
  }

  /** Room seen stays: only the consumer makes a difference to it, and it only makes room. */
  ghost predicate ProducerFits<T>(s: State<T>)
    requires s.capacity > 0
  {
    match s.producer
    case Idle => true
    case HeadLoaded(_, h) => h == s.head
    case RoomSeen(_, h, next) =>
      h == s.head && next == (s.head + 1) % s.capacity && |s.pushed| + 1 < |s.popped| + s.capacity
    case Written(_, next) => next == (s.head + 1) % s.capacity && |s.pushed| + 1 < |s.popped| + s.capacity
  }

  /** An item seen stays. After a wait whose predicate held, there is one. */
  ghost predicate ConsumerFits<T>(s: State<T>)
    requires s.capacity > 0
  {
    match s.consumer
    case Ready => true
    case TailLoaded(mode, t) => t == s.tail && (mode.AfterWait? ==> |s.popped| < |s.pushed|)
    case ItemSeen(t) => t == s.tail && |s.popped| < |s.pushed|
    case Taken(item, next) =>
      next == (s.tail + 1) % s.capacity && |s.popped| < |s.pushed| && item == s.pushed[|s.popped|]
    case Waiting => true
    case WaitHeadLoaded(h) => exists n: nat :: |s.popped| <= n <= |s.pushed| && h == n % s.capacity
    case Signaled => |s.popped| < |s.pushed|
  }

  /** What the queue holds. */
  function Contents<T>(s: State<T>): seq<T>
    requires |s.popped| <= |s.pushed|
  {
    s.pushed[|s.popped|..]
  }

  /** `log` is a history of a sequential FIFO queue with room for `room` items that ends with contents `q`. */
  ghost predicate Legal<T>(log: seq<Op<T>>, room: nat, q: seq<T>)
    decreases |log|
  {
    if |log| == 0 then q == []
    else
      var before := log[..|log| - 1];
      match log[|log| - 1]
      case Push(item) => 0 < |q| <= room && q[|q| - 1] == item && Legal(before, room, q[..|q| - 1])
      case PushRefused => |q| == room && Legal(before, room, q)
      case Pop(item) => Legal(before, room, [item] + q)
      case PopRefused => |q| == 0 && Legal(before, room, q)
  }

  ghost predicate Inv<T>(s: State<T>) {
    && Counters(s)
    && s.popped <= s.pushed
    && SlotsFit(s) && ProducerFits(s) && ConsumerFits(s)
    && Legal(s.log, s.capacity - 1, Contents(s))
  }

  // ----- positions modulo the capacity -----

  /** Two positions differ by the difference of their slots and a number of whole laps. */
  lemma Laps(i: nat, j: nat, cap: nat) returns (d: int)
    requires cap > 0
    ensures j - i == cap * d + j % cap - i % cap
    ensures d >= 1 ==> cap * d >= cap * 1 + cap * (d - 1) >= cap
    ensures d >= 2 ==> cap * d >= cap + cap
    ensures d <= -1 ==> cap * d + cap <= 0
    ensures d == 0 ==> cap * d == 0
    ensures d == 1 ==> cap * d == cap
  {
    d := j / cap - i / cap;
    assert cap * (j / cap) - cap * (i / cap) == cap * d;
    LapGrows(cap, d);
  }

  lemma LapGrows(cap: nat, d: int)
    requires cap > 0
    ensures d >= 1 ==> cap * d == cap + cap * (d - 1) && cap * (d - 1) >= 0
    ensures d >= 2 ==> cap * (d - 1) >= cap
    ensures d <= -1 ==> cap * d + cap <= 0
  {
    assert cap * d == cap + cap * (d - 1);
    if d >= 2 { assert cap * (d - 1) == cap + cap * (d - 2); }
    if d <= -1 { assert cap * d + cap == -(cap * (-d - 1)); }
  }

  lemma ModNext(n: nat, cap: nat)
    requires cap > 0
    ensures (n + 1) % cap == (if n % cap + 1 == cap then 0 else n % cap + 1) == (n % cap + 1) % cap
  {
    var d := Laps(n, n + 1, cap);
    var e := Laps(0, n % cap + 1, cap);
  }

  /** Within a window of `cap` positions, slots are distinct. */
  lemma SlotsDistinct(i: nat, j: nat, cap: nat)
    requires cap > 0 && i <= j < i + cap && i % cap == j % cap
    ensures i == j
  {
    var d := Laps(i, j, cap);
  }

  /** A whole lap further is the same slot. */
  lemma SameSlot(i: nat, cap: nat)
    requires cap > 0
    ensures (i + cap) % cap == i % cap
  {
    var d := Laps(i, i + cap, cap);
  }

  /** The full test is exact. */
  lemma FullTest<T>(s: State<T>)
    requires Counters(s)
    ensures (s.head + 1) % s.capacity == s.tail <==> |s.pushed| - |s.popped| == s.capacity - 1
  {
    ModNext(|s.pushed|, s.capacity);
    SameSlot(|s.popped|, s.capacity);
    if (s.head + 1) % s.capacity == s.tail {
      SlotsDistinct(|s.pushed| + 1, |s.popped| + s.capacity, s.capacity);
    }
  }

  /** The empty test is exact. */
  lemma EmptyTest<T>(s: State<T>)
    requires Counters(s)
    ensures s.head == s.tail <==> |s.pushed| == |s.popped|
  {
    if s.head == s.tail {
      SlotsDistinct(|s.popped|, |s.pushed|, s.capacity);
    }
  }

  lemma TailSlot<T>(s: State<T>)
    requires Counters(s) && SlotsFit(s)
    ensures s.tail < s.capacity && s.buffer[s.tail] == Expected(s, |s.popped|)
  {
  }

  // ----- steps -----

  function ProducerNext<T>(s: State<T>): State<T>
    requires Inv(s)
  {
    match s.producer
    case Idle => s
    case HeadLoaded(item, h) =>
      var next := (h + 1) % s.capacity;
      if next == s.tail then s.(producer := Idle, log := s.log + [PushRefused])
      else s.(producer := RoomSeen(item, h, next))
    case RoomSeen(item, h, next) => s.(buffer := s.buffer[h := Holding(item)], producer := Written(item, next))
    case Written(item, next) =>
      s.(head := next, producer := Idle, pushed := s.pushed + [item], log := s.log + [Push(item)])
  }

  function ConsumerNext<T>(s: State<T>): State<T>
    requires Inv(s)
  {
    match s.consumer
    case Ready => s
    case TailLoaded(mode, t) =>
      if t == s.head then s.(consumer := if mode == FastPath then Waiting else Ready, log := s.log + [PopRefused])
      else s.(consumer := ItemSeen(t))
    case ItemSeen(t) =>
      TailSlot(s);
      s.(buffer := s.buffer[t := Vacant], consumer := Taken(s.buffer[t].item, (t + 1) % s.capacity))
    case Taken(item, next) =>
      s.(tail := next, consumer := Ready, popped := s.popped + [item], log := s.log + [Pop(item)])
    case Waiting => s.(consumer := WaitHeadLoaded(s.head))
    case WaitHeadLoaded(h) => s.(consumer := if h != s.tail then Signaled else Waiting)
    case Signaled => s.(consumer := TailLoaded(AfterWait, s.tail))
  }

  /** One atomic step; an action that does not apply changes nothing. */
  function Step<T>(s: State<T>, a: Action<T>): State<T>
    requires Inv(s)
  {
    match a
    case BeginPush(item) => if s.producer.Idle? then s.(producer := HeadLoaded(item, s.head)) else s
    case ProducerStep => ProducerNext(s)
    case BeginTryPop => if s.consumer.Ready? then s.(consumer := TailLoaded(Plain, s.tail)) else s
    case BeginPopWait => if s.consumer.Ready? then s.(consumer := TailLoaded(FastPath, s.tail)) else s
    case ConsumerStep => ConsumerNext(s)
    case TimeOut => if s.consumer.Waiting? then s.(consumer := Ready) else s
  }

  function Initial<T>(capacity: nat): State<T> {
    State(capacity, seq(capacity, _ => Vacant), 0, 0, Idle, Ready, [], [], [])
  }

  lemma InitialInv<T>(capacity: nat)
    requires capacity > 0
    ensures Inv(Initial<T>(capacity))
  {
  }

  /** The write goes to the slot of the next position, and to no other of the window. */
  lemma WriteKeepsSlots<T>(s: State<T>, next: State<T>)
    requires Inv(s) && s.producer.RoomSeen? && next == ProducerNext(s)
    ensures SlotsFit(next)
  {
    hide Legal, ConsumerFits;
    var cap := s.capacity;
    forall i: nat | |s.popped| <= i < |s.popped| + cap ensures next.buffer[i % cap] == Expected(next, i) {
      if i % cap == s.head {
        if i <= |s.pushed| { SlotsDistinct(i, |s.pushed|, cap); } else { SlotsDistinct(|s.pushed|, i, cap); }
      }
    }
  }

  /** Moving the item out vacates the slot of the oldest position, and no other. */
  lemma TakeKeepsSlots<T>(s: State<T>, next: State<T>)
    requires Inv(s) && s.consumer.ItemSeen? && next == ConsumerNext(s)
    ensures SlotsFit(next)
  {
    hide Legal, ProducerFits;
    var cap := s.capacity;
    forall i: nat | |s.popped| <= i < |s.popped| + cap ensures next.buffer[i % cap] == Expected(next, i) {
      if i % cap == s.tail { SlotsDistinct(|s.popped|, i, cap); }
    }
  }

  /** Releasing the oldest slot moves the window by one: the released slot becomes the last one. */
  lemma ReleaseKeepsSlots<T>(s: State<T>, next: State<T>)
    requires Inv(s) && s.consumer.Taken? && next == ConsumerNext(s)
    ensures SlotsFit(next)
  {
    hide Legal;
    var cap := s.capacity;
    SameSlot(|s.popped|, cap);
    TailSlot(s);
    forall i: nat | |next.popped| <= i < |next.popped| + cap ensures next.buffer[i % cap] == Expected(next, i) {
    }
  }

  lemma LegalPush<T>(log: seq<Op<T>>, room: nat, q: seq<T>, item: T)
    requires Legal(log, room, q) && |q| < room
    ensures Legal(log + [Push(item)], room, q + [item])
  {
    assert (log + [Push(item)])[..|log|] == log;
    assert (q + [item])[..|q|] == q;
  }

  lemma LegalPop<T>(log: seq<Op<T>>, room: nat, q: seq<T>)
    requires Legal(log, room, q) && |q| > 0
    ensures Legal(log + [Pop(q[0])], room, q[1..])
  {
    assert (log + [Pop(q[0])])[..|log|] == log;
    assert [q[0]] + q[1..] == q;
  }

  lemma LegalRefusals<T>(log: seq<Op<T>>, room: nat, q: seq<T>)
    requires Legal(log, room, q)
    ensures |q| == room ==> Legal(log + [PushRefused], room, q)
    ensures |q| == 0 ==> Legal(log + [PopRefused], room, q)
  {
    assert (log + [PushRefused])[..|log|] == log;
    assert (log + [PopRefused])[..|log|] == log;
  }

  lemma PublishKeepsSlots<T>(s: State<T>, next: State<T>)
    requires Inv(s) && s.producer.Written? && next == ProducerNext(s)
    ensures SlotsFit(next)
  {
    hide Legal, SlotsFit, ProducerFits;
    SlotsStayFit(s, next);
  }

  /** Publishing an item takes nothing away from the consumer. */
  lemma ConsumerKeepsUp<T>(s: State<T>, next: State<T>)
    requires Counters(s) && ConsumerFits(s) && next.capacity == s.capacity && next.consumer == s.consumer
    requires next.popped == s.popped && next.tail == s.tail && s.pushed <= next.pushed
    ensures ConsumerFits(next)
  {
    if s.consumer.WaitHeadLoaded? {
      var n: nat :| |s.popped| <= n <= |s.pushed| && s.consumer.h == n % s.capacity;
      assert |next.popped| <= n <= |next.pushed|;
    }
  }

  lemma CheckKeepsInv<T>(s: State<T>)
    requires Inv(s) && s.producer.HeadLoaded?
    ensures Inv(ProducerNext(s))
  {
    hide Legal, SlotsFit;
    FullTest(s);
    LegalRefusals(s.log, s.capacity - 1, Contents(s));
    SlotsStayFit(s, ProducerNext(s));
    ConsumerKeepsUp(s, ProducerNext(s));
    hide ConsumerFits;
  }

  lemma PublishKeepsInv<T>(s: State<T>)
    requires Inv(s) && s.producer.Written?
    ensures Inv(ProducerNext(s))
  {
    hide Legal, SlotsFit, ConsumerFits;
    var next := ProducerNext(s);
    ModNext(|s.pushed|, s.capacity);
    LegalPush(s.log, s.capacity - 1, Contents(s), s.producer.item);
    assert Contents(next) == Contents(s) + [s.producer.item];
    PublishKeepsSlots(s, next);
    ConsumerKeepsUp(s, next);
  }

  lemma ProducerKeepsInv<T>(s: State<T>)
    requires Inv(s)
    ensures Inv(ProducerNext(s))
  {
    match s.producer
    case Idle =>
    case HeadLoaded(_, _) => CheckKeepsInv(s);
    case RoomSeen(_, _, _) =>
      WriteKeepsSlots(s, ProducerNext(s));
      hide Legal, SlotsFit;
      ConsumerKeepsUp(s, ProducerNext(s));
    case Written(_, _) => PublishKeepsInv(s);
  }

  /** Steps that leave the buffer and every expected content alone. */
  lemma SlotsStayFit<T>(s: State<T>, next: State<T>)
    requires Counters(s) && SlotsFit(s) && next.buffer == s.buffer && next.capacity == s.capacity && next.popped == s.popped
    requires forall i: nat :: |s.popped| <= i < |s.popped| + s.capacity ==> Expected(next, i) == Expected(s, i)
    ensures SlotsFit(next)
  {
  }

  lemma ConsumerKeepsInv<T>(s: State<T>)
    requires Inv(s)
    ensures Inv(ConsumerNext(s))
  {
    var next := ConsumerNext(s);
    match s.consumer
    case Ready =>
    case TailLoaded(mode, t) =>
      hide Legal, SlotsFit;
      EmptyTest(s);
      LegalRefusals(s.log, s.capacity - 1, Contents(s));
      SlotsStayFit(s, next);
    case ItemSeen(t) =>
      TailSlot(s);
      TakeKeepsSlots(s, next);
    case Taken(item, n) =>
      ReleaseKeepsSlots(s, next);
      hide Legal, SlotsFit;
      ModNext(|s.popped|, s.capacity);
      LegalPop(s.log, s.capacity - 1, Contents(s));
      assert Contents(next) == Contents(s)[1..];
    case Waiting =>
      assert |s.popped| <= |s.pushed| <= |s.pushed| && s.head == |s.pushed| % s.capacity;
    case WaitHeadLoaded(h) =>
      var n: nat :| |s.popped| <= n <= |s.pushed| && h == n % s.capacity;
    case Signaled =>
  }

  lemma StepKeepsInv<T>(s: State<T>, a: Action<T>)
    requires Inv(s)
    ensures Inv(Step(s, a))
  {
    if a.ProducerStep? {
      ProducerKeepsInv(s);
    } else if a.ConsumerStep? {
      ConsumerKeepsInv(s);
    } else {
      hide Legal, SlotsFit;
      SlotsStayFit(s, Step(s, a));
    }
  }

  // ----- runs -----

  function Run<T>(s: State<T>, actions: seq<Action<T>>): (after: State<T>)
    requires Inv(s)
    ensures Inv(after) && after.capacity == s.capacity
    decreases |actions|
  {
    if |actions| == 0 then s
    else
      StepKeepsInv(s, actions[0]);
      Run(Step(s, actions[0]), actions[1..])
  }

  /** Under every interleaving: what is popped is a prefix of what is pushed, at most capacity - 1
      items are held, and the operations, in the order in which they were decided, are a history of
      a sequential bounded FIFO queue, refusals included. */
  lemma Linearizable<T>(capacity: nat, actions: seq<Action<T>>)
    requires capacity > 0
    ensures Inv(Initial<T>(capacity))
    ensures var s := Run(Initial(capacity), actions);
            && s.popped <= s.pushed && |s.pushed| - |s.popped| <= capacity - 1
            && Legal(s.log, capacity - 1, Contents(s))
  {
    InitialInv<T>(capacity);
  }

  /** Under every interleaving: a slot about to be written holds no item, and it is not the slot the
      consumer is about to read; a slot about to be read holds the oldest item not yet popped. */
  lemma NoSlotConflict<T>(capacity: nat, actions: seq<Action<T>>)
    requires capacity > 0
    ensures Inv(Initial<T>(capacity))
    ensures var s := Run(Initial(capacity), actions);
            && (s.producer.RoomSeen? ==> s.producer.h < capacity && s.buffer[s.producer.h].Vacant?)
            && (s.consumer.ItemSeen? ==>
                  s.consumer.t < capacity && |s.popped| < |s.pushed| && s.buffer[s.consumer.t] == Holding(s.pushed[|s.popped|]))
            && (s.producer.RoomSeen? && s.consumer.ItemSeen? ==> s.producer.h != s.consumer.t)
  {
    InitialInv<T>(capacity);
    var s := Run(Initial(capacity), actions);
    hide Legal, Run;
    TailSlot(s);
    assert |s.pushed| % s.capacity == s.head;
  }

  /** The attempt after a wait whose predicate held is never refused. */
  lemma PopAfterWaitSucceeds<T>(capacity: nat, actions: seq<Action<T>>)
    requires capacity > 0
    ensures Inv(Initial<T>(capacity))
    ensures var s := Run(Initial(capacity), actions);
            s.consumer.TailLoaded? && s.consumer.mode == AfterWait ==> Step(s, ConsumerStep).consumer.ItemSeen?
  {
    InitialInv<T>(capacity);
    var s := Run(Initial(capacity), actions);
    hide Legal, Run, SlotsFit;
    EmptyTest(s);
  }

  // ----- size -----

  function SizeOf(h: nat, t: nat, capacity: nat): int {
    if h >= t then h - t else capacity - t + h
  }

  lemma SizeOfCounts(n: nat, m: nat, cap: nat)
    requires cap > 0 && m <= n < m + cap
    ensures SizeOf(n % cap, m % cap, cap) == n - m
  {
    var d := Laps(m, n, cap);
  }

  lemma {:induction false} HistoryGrows<T>(s: State<T>, actions: seq<Action<T>>)
    requires Inv(s)
    ensures var after := Run(s, actions);
            s.pushed <= after.pushed && s.popped <= after.popped
    decreases |actions|
  {
    hide Inv;
    if |actions| > 0 {
      StepKeepsInv(s, actions[0]);
      HistoryStep(s, actions[0]);
      HistoryGrows(Step(s, actions[0]), actions[1..]);
    }
  }

  lemma HistoryStep<T>(s: State<T>, a: Action<T>)
    requires Inv(s)
    ensures s.pushed <= Step(s, a).pushed && s.popped <= Step(s, a).popped
  {
  }

  /** `size` loads the head, then, any number of steps later, the tail. It reports the items pushed
      by the first load minus those popped by the second exactly when no item pushed after the first
      load has been popped by the second. The producer always gets the count at its second load, the
      consumer the count at its first. */
  lemma SizeIsRightIff<T>(first: State<T>, actions: seq<Action<T>>)
    requires Inv(first)
    ensures var second := Run(first, actions);
            var size := SizeOf(first.head, second.tail, first.capacity);
            && 0 <= size < first.capacity
            && (size == |first.pushed| - |second.popped| <==> |second.popped| <= |first.pushed|)
            && (second.pushed == first.pushed ==> size == |Contents(second)|)
            && (second.popped == first.popped ==> size == |Contents(first)|)
  {
    var second := Run(first, actions);
    HistoryGrows(first, actions);
    hide Legal, Run, SlotsFit;
    if |second.popped| <= |first.pushed| {
      SizeOfCounts(|first.pushed|, |second.popped|, first.capacity);
    }
  }

  // ----- the queue object, used by one thread at a time -----

  /** The steps of one undisturbed `try_push`. */
  function PushAlone<T>(s: State<T>, item: T): (after: State<T>)
    requires Inv(s)
    ensures Inv(after)
  {
    Run(s, [BeginPush(item), ProducerStep, ProducerStep, ProducerStep])
  }

  /** The steps of one undisturbed `try_pop`. */
  function PopAlone<T>(s: State<T>): (after: State<T>)
    requires Inv(s)
    ensures Inv(after)
  {
    Run(s, [BeginTryPop, ConsumerStep, ConsumerStep, ConsumerStep])
  }

  lemma RunOfFour<T>(s: State<T>, a: Action<T>, b: Action<T>, c: Action<T>, d: Action<T>)
    requires Inv(s)
    ensures Inv(Step(s, a)) && Inv(Step(Step(s, a), b)) && Inv(Step(Step(Step(s, a), b), c))
    ensures Run(s, [a, b, c, d]) == Step(Step(Step(Step(s, a), b), c), d)
  {
    hide Inv, Step;
    StepKeepsInv(s, a);
    StepKeepsInv(Step(s, a), b);
    StepKeepsInv(Step(Step(s, a), b), c);
    StepKeepsInv(Step(Step(Step(s, a), b), c), d);
    assert [a, b, c, d][1..] == [b, c, d] && [b, c, d][1..] == [c, d] && [c, d][1..] == [d] && [d][1..] == [];
    assert Run(Step(Step(Step(Step(s, a), b), c), d), []) == Step(Step(Step(Step(s, a), b), c), d);
    assert Run(Step(Step(Step(s, a), b), c), [d]) == Step(Step(Step(Step(s, a), b), c), d);
    assert Run(Step(Step(s, a), b), [c, d]) == Step(Step(Step(Step(s, a), b), c), d);
    assert Run(Step(s, a), [b, c, d]) == Step(Step(Step(Step(s, a), b), c), d);
  }

  class SpscQueue<T> {
    const capacity: nat
    const buffer: array<Slot<T>>
    var head: nat
    var tail: nat
    ghost var pushed: seq<T>
    ghost var popped: seq<T>
    ghost var log: seq<Op<T>>

    /** The object between operations, as a state of the machine. */
    ghost function View(): State<T>
      reads this, buffer
    {
      State(capacity, buffer[..], head, tail, Idle, Ready, pushed, popped, log)
    }

    ghost predicate Valid()
      reads this, buffer
    {
      Inv(View())
    }

    constructor (capacity: nat)
      requires capacity > 0
      ensures Valid() && fresh(buffer) && View() == Initial(capacity)
    {
      this.capacity := capacity;
      buffer := new Slot<T>[capacity](_ => Vacant);
      head, tail := 0, 0;
      pushed, popped, log := [], [], [];
      new;
      InitialInv<T>(capacity);
      assert View() == Initial(capacity);
    }

    method TryPush(item: T) returns (ok: bool)
      requires Valid()
      modifies this, buffer
      ensures Valid() && View() == PushAlone(old(View()), item)
      ensures ok <==> |Contents(old(View()))| < capacity - 1
      ensures Contents(View()) == if ok then Contents(old(View())) + [item] else Contents(old(View()))
    {
      hide Legal, SlotsFit;
      FullTest(View());
      RunOfFour(View(), BeginPush(item), ProducerStep, ProducerStep, ProducerStep);
      hide Run;
      var next := (head + 1) % capacity;
      if next == tail {
        log := log + [PushRefused];
        return false;
      }
      buffer[head] := Holding(item);
      head := next;
      pushed, log := pushed + [item], log + [Push(item)];
      return true;
    }

    method TryPop() returns (r: Slot<T>)
      requires Valid()
      modifies this, buffer
      ensures Valid() && View() == PopAlone(old(View()))
      ensures r == if |Contents(old(View()))| == 0 then Vacant else Holding(Contents(old(View()))[0])
      ensures Contents(View()) == if r.Vacant? then [] else Contents(old(View()))[1..]
    {
      hide Legal;
      EmptyTest(View());
      TailSlot(View());
      RunOfFour(View(), BeginTryPop, ConsumerStep, ConsumerStep, ConsumerStep);
      hide Run, SlotsFit;
      if tail == head {
        log := log + [PopRefused];
        return Vacant;
      }
      r := buffer[tail];
      buffer[tail] := Vacant;
      tail := (tail + 1) % capacity;
      popped, log := popped + [r.item], log + [Pop(r.item)];
    }

    method Size() returns (n: int)
      requires Valid()
      ensures n == |Contents(View())| < capacity
    {
      hide Legal, SlotsFit;
      SizeOfCounts(|pushed|, |popped|, capacity);
      n := if head >= tail then head - tail else capacity - tail + head;
    }
  }
}
