/** Length-prefixed messages over a byte stream: the framing helpers and the receive loop of the
    convergence layer adapter, src/ltp_cla/convergence_layer_adapter.cpp. */
module StreamFraming {
  import opened Bits

  const TWO_TO_THE_32: nat := 0x1_0000_0000

  /** A 32-bit value, most significant byte first. */
  function BigEndian(x: nat): (h: seq<byte>)
    ensures |h| == 4
  {
    [x / 0x100_0000 % 256, x / 0x1_0000 % 256, x / 0x100 % 256, x % 256]
  }

  function FromBigEndian(h: seq<byte>): (x: nat)
    requires |h| == 4
    ensures x < TWO_TO_THE_32
  {
    h[0] as nat * 0x100_0000 + h[1] as nat * 0x1_0000 + h[2] as nat * 0x100 + h[3] as nat
  }

  lemma FromBigEndianOfBigEndian(x: nat)
    ensures FromBigEndian(BigEndian(x)) == x % TWO_TO_THE_32
  {
    var a, b, c := x / 0x100, x / 0x1_0000, x / 0x100_0000;
    assert b == a / 0x100 && c == b / 0x100;
    assert x == 0x100 * a + x % 256 && a == 0x100 * b + a % 256 && b == 0x100 * c + b % 256;
    assert c == 0x100 * (c / 0x100) + c % 256;
    var low := FromBigEndian(BigEndian(x));
    assert x == TWO_TO_THE_32 * (c / 0x100) + low;
  }

  /** A message behind its length; the length is cast to 32 bits. */
  function Framed(message: seq<byte>): seq<byte> {
    BigEndian(|message| % TWO_TO_THE_32) + message
  }

  /** Four bytes of length, the most significant first, and then the message. */
  lemma FramedBytes(message: seq<byte>)
    ensures var f := Framed(message);
            && |f| == 4 + |message| && f[4..] == message
            && f[0] as nat * 0x100_0000 + f[1] as nat * 0x1_0000 + f[2] as nat * 0x100 + f[3] as nat == |message| % 0x1_0000_0000
  {
    var n := |message| % TWO_TO_THE_32;
    FromBigEndianOfBigEndian(n);
    assert Framed(message)[..4] == BigEndian(n);
  }

  method FrameMessage(data: seq<byte>) returns (framed: seq<byte>)
    ensures framed == Framed(data)
  {
    var len := |data| % TWO_TO_THE_32;
    framed := [];
    framed := framed + [len / 0x100_0000 % 256];
    framed := framed + [len / 0x1_0000 % 256];
    framed := framed + [len / 0x100 % 256];
    framed := framed + [len % 256];
    framed := framed + data;
  }

  /** Taking one message off the front of a buffer. `Overrun` is where the program would copy past
      the end: it compares the size with `4 + len` in 32-bit arithmetic. */
  datatype Extraction =
    | Incomplete
    | Extracted(message: seq<byte>, rest: seq<byte>)
    | Overrun

  function Extract(buffer: seq<byte>): (r: Extraction)
    ensures r.Extracted? ==> |r.rest| < |buffer|
  {
    if |buffer| < 4 then Incomplete
    else
      var len := FromBigEndian(buffer[..4]);
      if |buffer| < (4 + len) % TWO_TO_THE_32 then Incomplete
      else if |buffer| < 4 + len then Overrun
      else Extracted(buffer[4..4 + len], buffer[4 + len..])
  }

  /** The wrapped comparison misjudges exactly the unfinished messages of 2^32 - 4 bytes or more. */
  lemma OverrunIff(buffer: seq<byte>)
    ensures Extract(buffer).Overrun?
            <==> |buffer| >= 4 && |buffer| < 4 + FromBigEndian(buffer[..4])
                 && FromBigEndian(buffer[..4]) >= TWO_TO_THE_32 - 4
  {
  }

  lemma Header(message: seq<byte>, buffer: seq<byte>)
    requires |buffer| >= 4 && buffer[..4] == Framed(message)[..4]
    ensures FromBigEndian(buffer[..4]) == |message| % TWO_TO_THE_32
  {
    FromBigEndianOfBigEndian(|message| % TWO_TO_THE_32);
    assert Framed(message)[..4] == BigEndian(|message| % TWO_TO_THE_32);
  }

  /** What is left of a message once its frame is cut after `cut` bytes. */
  lemma CutFrame(message: seq<byte>, cut: nat)
    requires |message| < TWO_TO_THE_32 - 4 && cut < |Framed(message)|
    ensures Extract(Framed(message)[..cut]) == Incomplete
  {
    hide FromBigEndian, BigEndian;
    if cut >= 4 {
      assert Framed(message)[..cut][..4] == Framed(message)[..4];
      Header(message, Framed(message)[..cut]);
    }
  }

  lemma WholeFrame(message: seq<byte>, rest: seq<byte>)
    requires |message| < TWO_TO_THE_32
    ensures Extract(Framed(message) + rest) == Extracted(message, rest)
  {
    hide FromBigEndian, BigEndian;
    var buffer := Framed(message) + rest;
    assert buffer[..4] == Framed(message)[..4];
    Header(message, buffer);
    assert buffer[4..4 + |message|] == message && buffer[4 + |message|..] == rest;
  }

  /** A framed message is recognised whole, whatever follows, and never before it is whole. */
  ghost predicate FramingWorks(message: seq<byte>) {
    && Extract(Framed(message)) == Extracted(message, [])
    && forall cut: nat :: cut < |Framed(message)| ==> Extract(Framed(message)[..cut]) == Incomplete
  }

  /** That is so exactly for messages shorter than 2^32 - 4 bytes. */
  lemma FramingWorksIff(message: seq<byte>)
    ensures FramingWorks(message) <==> |message| < TWO_TO_THE_32 - 4
  {
    hide FromBigEndian, BigEndian;
    var n := |message|;
    if n < TWO_TO_THE_32 - 4 {
      assert Framed(message) + [] == Framed(message);
      WholeFrame(message, []);
      forall cut: nat | cut < |Framed(message)| ensures Extract(Framed(message)[..cut]) == Incomplete {
        CutFrame(message, cut);
      }
    } else if n < TWO_TO_THE_32 {
      var header := Framed(message)[..4];
      assert header[..4] == Framed(message)[..4];
      Header(message, header);
      assert Extract(header) == Overrun;
    } else {
      Header(message, Framed(message));
      assert Extract(Framed(message)) != Extracted(message, []);
    }
  }

  // ----- draining the buffer -----

  /** Messages handed on, the bytes kept, and whether every extraction was defined. */
  datatype Drained = Drained(messages: seq<seq<byte>>, rest: seq<byte>, defined: bool)

  function Drain(buffer: seq<byte>): Drained
    decreases |buffer|
  {
    match Extract(buffer)
    case Incomplete => Drained([], buffer, true)
    case Overrun => Drained([], buffer, false)
    case Extracted(message, rest) =>
      var d := Drain(rest);
      Drained([message] + d.messages, d.rest, d.defined)
  }

  lemma ExtractOfLonger(buffer: seq<byte>, more: seq<byte>)
    requires Extract(buffer).Extracted?
    ensures Extract(buffer + more) == Extracted(Extract(buffer).message, Extract(buffer).rest + more)
  {
    assert (buffer + more)[..4] == buffer[..4];
    var len := FromBigEndian(buffer[..4]);
    assert (buffer + more)[4..4 + len] == buffer[4..4 + len];
    assert (buffer + more)[4 + len..] == buffer[4 + len..] + more;
  }

  /** Draining early and again later is draining once. */
  lemma {:induction false} DrainInTwo(buffer: seq<byte>, more: seq<byte>)
    requires Drain(buffer).defined
    ensures var first := Drain(buffer);
            var second := Drain(first.rest + more);
            Drain(buffer + more) == Drained(first.messages + second.messages, second.rest, second.defined)
    decreases |buffer|
  {
    hide Extract;
    if Extract(buffer).Extracted? {
      ExtractOfLonger(buffer, more);
      DrainInTwo(Extract(buffer).rest, more);
    } else {
      assert Drain(buffer) == Drained([], buffer, true);
      var second := Drain(buffer + more);
      assert [] + second.messages == second.messages;
    }
  }

  // ----- the receive loop -----

  /** What one round of the loop sees: bytes from the socket, a lost connection, or nothing. */
  datatype Poll = Read(bytes: seq<byte>) | ConnectionLost | Timeout

  function OnPoll(d: Drained, poll: Poll): Drained {
    match poll
    case Read(bytes) =>
      var more := Drain(d.rest + bytes);
      Drained(d.messages + more.messages, more.rest, d.defined && more.defined)
    case ConnectionLost => d.(rest := [])
    case Timeout => d
  }

  function AfterPolls(polls: seq<Poll>): Drained {
    if |polls| == 0 then Drained([], [], true)
    else OnPoll(AfterPolls(polls[..|polls| - 1]), polls[|polls| - 1])
  }

  class Receiver {
    var buffer: seq<byte>
    var delivered: seq<seq<byte>>

    constructor ()
      ensures buffer == [] && delivered == []
    {
      buffer, delivered := [], [];
    }

    /** Take one message off the front of the buffer, in place. */
    method ExtractFramedMessage() returns (ok: bool, out: seq<byte>)
      requires !Extract(buffer).Overrun?
      modifies this`buffer
      ensures ok <==> Extract(old(buffer)).Extracted?
      ensures ok ==> out == Extract(old(buffer)).message && buffer == Extract(old(buffer)).rest
      ensures !ok ==> buffer == old(buffer)
    {
      out := [];
      if |buffer| < 4 { return false, out; }
      var len := buffer[0] as nat * 0x100_0000 + buffer[1] as nat * 0x1_0000 + buffer[2] as nat * 0x100 + buffer[3] as nat;
      assert len == FromBigEndian(buffer[..4]);
      if |buffer| < (4 + len) % TWO_TO_THE_32 { return false, out; }
      out := buffer[4..4 + len];
      buffer := buffer[4 + len..];
      return true, out;
    }

    /** Append what was read, then hand on every complete message. */
    method OnRead(bytes: seq<byte>)
      requires Drain(buffer + bytes).defined
      modifies this
      ensures delivered == old(delivered) + Drain(old(buffer) + bytes).messages
      ensures buffer == Drain(old(buffer) + bytes).rest
    {
      hide Extract;
      buffer := buffer + bytes;
      ghost var all := Drain(buffer);
      var ok, message := ExtractFramedMessage();
      if ok {
        delivered := delivered + [message];
      }
      while ok
        invariant Drain(buffer).defined && Drain(buffer).rest == all.rest
        invariant delivered + Drain(buffer).messages == old(delivered) + all.messages
        invariant !ok ==> Extract(buffer) == Incomplete
        decreases ok, |buffer|
      {
        ok, message := ExtractFramedMessage();
        if ok {
          delivered := delivered + [message];
        }
      }
    }

    /** The loop of the receive thread over everything it is woken for. */
    method Run(polls: seq<Poll>)
      requires buffer == [] && delivered == [] && AfterPolls(polls).defined
      modifies this
      ensures delivered == AfterPolls(polls).messages && buffer == AfterPolls(polls).rest
    {
      var i := 0;
      while i < |polls|
        invariant 0 <= i <= |polls|
        invariant delivered == AfterPolls(polls[..i]).messages && buffer == AfterPolls(polls[..i]).rest
      {
        assert polls[..i + 1][..i] == polls[..i];
        DefinedBefore(polls, i + 1);
        match polls[i] {
          case Read(bytes) => OnRead(bytes);
          case ConnectionLost => buffer := [];
          case Timeout =>
        }
        i := i + 1;
      }
      assert polls[..|polls|] == polls;
    }
  }

  lemma {:induction false} DefinedBefore(polls: seq<Poll>, i: nat)
    requires i <= |polls| && AfterPolls(polls).defined
    ensures AfterPolls(polls[..i]).defined
    decreases |polls|
  {
    if i == |polls| {
      assert polls[..i] == polls;
    } else {
      assert polls[..|polls| - 1][..i] == polls[..i];
      DefinedBefore(polls[..|polls| - 1], i);
    }
  }

  // ----- reassembly -----

  /** The bytes read since the last reconnect. */
  function BytesRead(polls: seq<Poll>): seq<byte> {
    if |polls| == 0 then []
    else
      var before := BytesRead(polls[..|polls| - 1]);
      match polls[|polls| - 1]
      case Read(bytes) => before + bytes
      case ConnectionLost => []
      case Timeout => before
  }

  /** Messages delivered before the last reconnect. */
  function Earlier(polls: seq<Poll>): seq<seq<byte>> {
    if |polls| == 0 then []
    else if polls[|polls| - 1].ConnectionLost? then AfterPolls(polls[..|polls| - 1]).messages
    else Earlier(polls[..|polls| - 1])
  }

  lemma EmptyDrain()
    ensures Drain([]) == Drained([], [], true)
  {
  }

  /** How a stream is cut into reads does not matter: since the last reconnect, the loop has done
      what a single drain of all bytes read would do. */
  lemma {:induction false} ChunkingIsIrrelevant(polls: seq<Poll>)
    requires AfterPolls(polls).defined
    ensures var d := Drain(BytesRead(polls));
            AfterPolls(polls) == Drained(Earlier(polls) + d.messages, d.rest, d.defined)
  {
    hide Drain;
    if |polls| == 0 {
      assert Drain([]) == Drained([], [], true) by { EmptyDrain(); }
    } else {
      var n := |polls| - 1;
      assert polls[..n + 1] == polls;
      EmptyDrain();
      DefinedBefore(polls, n);
      ChunkingIsIrrelevant(polls[..n]);
      if polls[n].Read? {
        DrainInTwo(BytesRead(polls[..n]), polls[n].bytes);
      }
    }
  }

  /** The frames of some messages, one after the other. */
  function Stream(messages: seq<seq<byte>>): seq<byte> {
    if |messages| == 0 then [] else Framed(messages[0]) + Stream(messages[1..])
  }

  /** A prefix of the stream that holds the first frame goes on with a prefix of the rest. */
  lemma AfterFirst(messages: seq<seq<byte>>, p: seq<byte>) returns (after: seq<byte>)
    requires |messages| > 0 && p <= Stream(messages) && |p| >= |Framed(messages[0])|
    ensures p == Framed(messages[0]) + after && after <= Stream(messages[1..])
  {
    hide Framed;
    var n := |Framed(messages[0])|;
    after := p[n..];
    assert Stream(messages)[..n] == Framed(messages[0]) && Stream(messages)[n..] == Stream(messages[1..]);
    assert p[..n] == Framed(messages[0]);
  }

  /** Draining any prefix of a stream of frames gives the whole messages in it, in order, and keeps
      an unfinished frame or nothing. */
  lemma {:induction false} DrainOfPrefix(messages: seq<seq<byte>>, p: seq<byte>) returns (k: nat)
    requires forall m :: m in messages ==> |m| < TWO_TO_THE_32 - 4
    requires p <= Stream(messages)
    ensures k <= |messages| && Drain(p).defined && Drain(p).messages == messages[..k]
    ensures Stream(messages[..k]) + Drain(p).rest == p
    ensures if k == |messages| then Drain(p).rest == [] else |Drain(p).rest| < |Framed(messages[k])|
    decreases |messages|
  {
    hide Extract, Framed;
    if |messages| == 0 {
      EmptyDrain();
      k := 0;
    } else {
      var frame := Framed(messages[0]);
      if |p| < |frame| {
        assert p == frame[..|p|];
        CutFrame(messages[0], |p|);
        k := 0;
      } else {
        var after := AfterFirst(messages, p);
        WholeFrame(messages[0], after);
        var j := DrainOfPrefix(messages[1..], after);
        k := j + 1;
        assert messages[..k] == [messages[0]] + messages[1..][..j];
        assert messages[..k][1..] == messages[1..][..j];
      }
    }
  }

  /** Reassembly. Whatever the reads and timeouts since the last reconnect, once the bytes read are
      the first bytes of a stream of framed messages, exactly the messages that are whole have been
      delivered, in order, and the buffer holds an unfinished frame or nothing. */
  lemma Reassembly(polls: seq<Poll>, messages: seq<seq<byte>>) returns (k: nat)
    requires forall m :: m in messages ==> |m| < TWO_TO_THE_32 - 4
    requires AfterPolls(polls).defined && BytesRead(polls) <= Stream(messages)
    ensures k <= |messages| && AfterPolls(polls).messages == Earlier(polls) + messages[..k]
    ensures Stream(messages[..k]) + AfterPolls(polls).rest == BytesRead(polls)
    ensures if k == |messages| then AfterPolls(polls).rest == [] else |AfterPolls(polls).rest| < |Framed(messages[k])|
  {
    ChunkingIsIrrelevant(polls);
    k := DrainOfPrefix(messages, BytesRead(polls));
  }

  /** On such a stream no extraction is ever undefined, and a stream read to its end is delivered whole. */
  lemma {:induction false} StreamDelivered(polls: seq<Poll>, messages: seq<seq<byte>>)
    requires forall m :: m in messages ==> |m| < TWO_TO_THE_32 - 4
    requires (forall poll :: poll in polls ==> !poll.ConnectionLost?) && BytesRead(polls) <= Stream(messages)
    ensures AfterPolls(polls).defined
    ensures BytesRead(polls) == Stream(messages) ==> AfterPolls(polls) == Drained(messages, [], true)
    decreases |polls|
  {
    if |polls| > 0 {
      var n := |polls| - 1;
      var before := polls[..n];
      assert BytesRead(before) <= BytesRead(polls);
      StreamDelivered(before, messages);
      if polls[n].Read? {
        ChunkingIsIrrelevant(before);
        DrainInTwo(BytesRead(before), polls[n].bytes);
        var j := DrainOfPrefix(messages, BytesRead(before));
        var l := DrainOfPrefix(messages, BytesRead(polls));
      }
    }
    var k := Reassembly(polls, messages);
    NothingEarlier(polls);
    if BytesRead(polls) == Stream(messages) {
      WholeStream(messages, k, AfterPolls(polls).rest);
    }
  }

  lemma {:induction false} NothingEarlier(polls: seq<Poll>)
    requires forall poll :: poll in polls ==> !poll.ConnectionLost?
    ensures Earlier(polls) == []
    decreases |polls|
  {
    if |polls| > 0 {
      NothingEarlier(polls[..|polls| - 1]);
    }
  }

  lemma {:induction false} WholeStream(messages: seq<seq<byte>>, k: nat, rest: seq<byte>)
    requires k <= |messages| && Stream(messages[..k]) + rest == Stream(messages)
    requires k < |messages| ==> |rest| < |Framed(messages[k])|
    ensures k == |messages|
    decreases k
  {
    if k == 0 {
      assert messages[..k] == [];
    } else {
      assert messages[..k][1..] == messages[1..][..k - 1];
      assert Stream(messages) == Framed(messages[0]) + Stream(messages[1..]);
      assert Stream(messages)[|Framed(messages[0])|..] == Stream(messages[1..]);
      assert (Stream(messages[..k]) + rest)[|Framed(messages[0])|..] == Stream(messages[1..][..k - 1]) + rest;
      WholeStream(messages[1..], k - 1, rest);
    }
  }
}
