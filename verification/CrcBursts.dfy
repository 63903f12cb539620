/** Bursts in the order in which a reflected CRC takes its bits: any damage within 32 consecutive bits
    of that order is detected. */
module CrcBursts {
  import opened Bits
  import opened Crc32

  const TOP := 0x8000_0000

  /** The polynomial has its top bit set: feedback shows in the top bit. */
  lemma FeedbackShows(h: nat)
    requires h < TOP
    ensures Xor(h, POLY) >= TOP
  {
    hide Xor;
    if Xor(h, POLY) < TOP {
      Pow2Of31();
      XorBound(h, Xor(h, POLY), 31);
      XorAssociates(h, h, POLY);
      XorIsZero(h, h);
      XorCommutes(0, POLY);
      XorZero(POLY);
    }
  }

  lemma Pow2Of31()
    ensures Pow2(31) == TOP
  {
    Pow2Of32();
  }

  function Feedback(on: bool): nat { if on then POLY else 0 }

  predicate IsOdd(c: nat) { c % 2 == 1 }

  function Half(c: nat): nat { c / 2 }

  lemma HalvesOfXor(c: nat, d: nat)
    ensures Half(Xor(c, d)) == Xor(Half(c), Half(d)) && IsOdd(Xor(c, d)) == (IsOdd(c) != IsOdd(d))
  {
    XorStep(c, d);
    hide Xor;
  }

  lemma StepIsFeedback(c: nat, b: bool)
    ensures SerialStep(c, b) == Xor(Half(c), Feedback(IsOdd(c) != b))
  {
    hide Xor;
    XorZero(c / 2);
  }

  lemma FeedbackDifference(f: bool, g: bool)
    ensures Xor(Feedback(f), Feedback(g)) == Feedback(f != g)
  {
    hide Xor;
    XorIsZero(POLY, POLY);
    XorIsZero(0, 0);
    XorZero(POLY);
    XorCommutes(0, POLY);
  }

  /** The difference of two registers develops like a register fed with the difference of the bits. */
  lemma StepOfDifference(c: nat, d: nat, b: bool, e: bool)
    ensures Xor(SerialStep(c, b), SerialStep(d, e)) == SerialStep(Xor(c, d), b != e)
  {
    hide Xor, SerialStep, Feedback, IsOdd, Half;
    var f, g := IsOdd(c) != b, IsOdd(d) != e;
    StepIsFeedback(c, b);
    StepIsFeedback(d, e);
    StepIsFeedback(Xor(c, d), b != e);
    HalvesOfXor(c, d);
    XorExchange(Half(c), Feedback(f), Half(d), Feedback(g));
    FeedbackDifference(f, g);
  }

  function DifferenceOf(u: seq<bool>, v: seq<bool>): (e: seq<bool>)
    requires |u| == |v|
    ensures |e| == |u|
  {
    seq(|u|, i requires 0 <= i < |u| => u[i] != v[i])
  }

  lemma {:induction false} SerialOfDifference(c: nat, d: nat, u: seq<bool>, v: seq<bool>)
    requires |u| == |v|
    ensures Xor(Serial(c, u), Serial(d, v)) == Serial(Xor(c, d), DifferenceOf(u, v))
    decreases |u|
  {
    hide Xor, SerialStep;
    if |u| > 0 {
      StepOfDifference(c, d, u[0], v[0]);
      assert DifferenceOf(u, v)[1..] == DifferenceOf(u[1..], v[1..]);
      SerialOfDifference(SerialStep(c, u[0]), SerialStep(d, v[0]), u[1..], v[1..]);
    }
  }

  lemma StepIsWord(d: nat, b: bool)
    requires Word(d)
    ensures Word(SerialStep(d, b))
    ensures SerialStep(d, b) < TOP ==> SerialStep(d, b) == d / 2 && (d % 2 == 1) == b
  {
    XorOfWords(d / 2, POLY);
    FeedbackShows(d / 2);
  }

  /** A difference that dies out within `n` steps was small to begin with. */
  lemma {:induction false} DyingIsSmall(d: nat, bits: seq<bool>)
    requires Word(d) && |bits| <= 31 && Serial(d, bits) == 0
    ensures d < Pow2(|bits|)
    decreases |bits|
  {
    hide SerialStep;
    if |bits| > 0 {
      StepIsWord(d, bits[0]);
      DyingIsSmall(SerialStep(d, bits[0]), bits[1..]);
      Pow2Monotone(|bits| - 1, 31);
      Pow2Of31();
    }
  }

  /** Feeding zeros loses no difference, and makes none. */
  lemma {:induction false} ZerosKeep(d: nat, bits: seq<bool>)
    requires Word(d) && forall i :: 0 <= i < |bits| ==> !bits[i]
    ensures Serial(d, bits) == 0 <==> d == 0
    decreases |bits|
  {
    if |bits| > 0 {
      StepIsWord(d, false);
      ZerosKeep(SerialStep(d, bits[0]), bits[1..]);
    }
  }

  lemma {:induction false} SerialIsWord(d: nat, bits: seq<bool>)
    requires Word(d)
    ensures Word(Serial(d, bits))
    decreases |bits|
  {
    hide SerialStep;
    if |bits| > 0 {
      StepIsWord(d, bits[0]);
      SerialIsWord(SerialStep(d, bits[0]), bits[1..]);
    }
  }

  lemma {:induction false} FirstOne(e: seq<bool>, i: nat) returns (k: nat)
    requires i < |e| && e[i]
    ensures k <= i && e[k] && forall j :: 0 <= j < k ==> !e[j]
  {
    k := 0;
    while !e[k]
      invariant k <= i && forall j :: 0 <= j < k ==> !e[j]
      decreases i - k
    {
      k := k + 1;
    }
  }

  /** An error pattern whose ones lie within 32 consecutive bits never cancels out. */
  lemma BurstShows(e: seq<bool>, i: nat, at: nat)
    requires at < |e| && e[at] && forall j :: 0 <= j < |e| && e[j] ==> i <= j < i + 32
    ensures Serial(0, e) != 0
  {
    hide Serial, SerialStep, Xor;
    var k := FirstOne(e, at);
    var end := if i + 32 < |e| then i + 32 else |e|;
    var before, burst, after := e[..k], e[k + 1..end], e[end..];
    assert e == before + ([true] + (burst + after));
    SerialConcat(0, before, [true] + (burst + after));
    ZerosKeep(0, before);
    SerialConcat(0, [true], burst + after);
    OneAlone();
    SerialConcat(POLY, burst, after);
    SerialIsWord(POLY, burst);
    ZerosKeep(Serial(POLY, burst), after);
    if Serial(POLY, burst) == 0 {
      DyingIsSmall(POLY, burst);
      Pow2Monotone(|burst|, 31);
      Pow2Of31();
    }
  }

  lemma OneAlone()
    ensures Serial(0, [true]) == POLY
  {
    assert [true][1..] == [];
    XorCommutes(0, POLY);
    XorZero(POLY);
  }

  lemma {:induction false} LowFirstInjective(x: nat, y: nat, n: nat)
    requires x < Pow2(n) && y < Pow2(n) && LowFirst(x, n) == LowFirst(y, n)
    ensures x == y
  {
    if n > 0 {
      assert LowFirst(x, n)[1..] == LowFirst(x / 2, n - 1) && LowFirst(y, n)[1..] == LowFirst(y / 2, n - 1);
      assert LowFirst(x, n)[0] == LowFirst(y, n)[0];
      LowFirstInjective(x / 2, y / 2, n - 1);
    }
  }

  lemma {:induction false} MessageBitsInjective(a: seq<byte>, b: seq<byte>)
    requires |a| == |b| && MessageBits(a) == MessageBits(b)
    ensures a == b
  {
    hide LowFirst;
    if |a| > 0 {
      var n := |a| - 1;
      var u, v := MessageBits(a), MessageBits(b);
      assert u[..8 * n] == MessageBits(a[..n]) && v[..8 * n] == MessageBits(b[..n]);
      assert u[8 * n..] == LowFirst(a[n], 8) && v[8 * n..] == LowFirst(b[n], 8);
      MessageBitsInjective(a[..n], b[..n]);
      Pow2Of8();
      LowFirstInjective(a[n], b[n], 8);
      assert a == a[..n] + [a[n]] && b == b[..n] + [b[n]];
    }
  }

  /** Two messages of the same length whose bits, each byte from its lowest bit up, differ only within
      32 consecutive positions have different CRCs. */
  lemma DetectsBitBurst(a: seq<byte>, b: seq<byte>, i: nat)
    requires |a| == |b| && a != b
    requires forall j :: 0 <= j < |MessageBits(a)| && MessageBits(a)[j] != MessageBits(b)[j] ==> i <= j < i + 32
    ensures Crc(a) != Crc(b)
  {
    hide Xor, Serial, MessageBits, UpdateAll;
    var u, v := MessageBits(a), MessageBits(b);
    if u == v { MessageBitsInjective(a, b); }
    var at :| 0 <= at < |u| && u[at] != v[at];
    BurstShows(DifferenceOf(u, v), i, at);
    SerialOfDifference(INIT, INIT, u, v);
    XorIsZero(INIT, INIT);
    TableDrivenIsBitSerial(a);
    TableDrivenIsBitSerial(b);
    DifferentRegisters(UpdateAll(INIT, a), UpdateAll(INIT, b));
  }

  /** The final inversion keeps different registers different. */
  lemma DifferentRegisters(x: nat, y: nat)
    requires Xor(x, y) != 0
    ensures Xor(x, INIT) != Xor(y, INIT)
  {
    hide Xor;
    if Xor(x, INIT) == Xor(y, INIT) {
      XorAssociates(x, INIT, INIT);
      XorAssociates(y, INIT, INIT);
      XorIsZero(INIT, INIT);
      XorZero(x);
      XorZero(y);
      XorIsZero(x, y);
    }
  }
}
