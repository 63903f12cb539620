/** What the FEC chain corrects. The code is linear, so two inputs are as far apart on the air as
    the weight of the encoding of their difference; that weight is bounded below from the
    first difference on. */
module FecCorrection {
  import opened Bits
  import opened ConvCode
  import opened Viterbi
  import opened ViterbiTies
  import opened FecDecoders
  import opened ColumnDistances

  // ----- linearity -----

  function XorBits(p: seq<bool>, q: seq<bool>): (e: seq<bool>)
    requires |p| == |q|
    ensures |e| == |p|
  {
    seq(|p|, i requires 0 <= i < |p| => p[i] != q[i])
  }

  function XorReg(r: Reg, s: Reg): Reg { r ^ s }

  function Half(r: Reg): Reg { r >> 1 }

  function FlipTop(r: Reg): Reg { r ^ 0x40 }

  lemma ShiftIsHalf(r: Reg)
    ensures Shift(r, false) == Half(r) && Shift(r, true) == FlipTop(Half(r))
  {
  }

  lemma XorOfHalves(r: Reg, s: Reg)
    ensures XorReg(Half(r), Half(s)) == Half(XorReg(r, s))
  {
  }

  lemma XorOfFlips(r: Reg, s: Reg)
    ensures XorReg(FlipTop(r), FlipTop(s)) == XorReg(r, s)
    ensures XorReg(FlipTop(r), s) == FlipTop(XorReg(r, s)) == XorReg(r, FlipTop(s))
  {
  }

  lemma ShiftXor(r: Reg, s: Reg, b: bool, c: bool)
    ensures Shift(XorReg(r, s), b != c) == XorReg(Shift(r, b), Shift(s, c))
  {
    hide Shift, XorReg, Half, FlipTop;
    ShiftIsHalf(r);
    ShiftIsHalf(s);
    ShiftIsHalf(XorReg(r, s));
    XorOfHalves(r, s);
    XorOfFlips(Half(r), Half(s));
  }

  lemma Out0Xor(r: Reg, s: Reg)
    ensures Out0(XorReg(r, s)) == (Out0(r) != Out0(s))
  {
  }

  lemma Out1Xor(r: Reg, s: Reg)
    ensures Out1(XorReg(r, s)) == (Out1(r) != Out1(s))
  {
  }

  lemma {:induction false} RunXor(p: seq<bool>, q: seq<bool>)
    requires |p| == |q|
    ensures Run(XorBits(p, q)) == XorReg(Run(p), Run(q))
  {
    hide Shift, XorReg;
    if |p| == 0 {
      ZeroXor();
    } else {
      var n := |p| - 1;
      RunXor(p[..n], q[..n]);
      assert XorBits(p, q)[..n] == XorBits(p[..n], q[..n]);
      ShiftXor(Run(p[..n]), Run(q[..n]), p[n], q[n]);
    }
  }

  lemma ZeroXor()
    ensures XorReg(0, 0) == 0
  {
  }

  /** The distance between two code words is the weight of the code word of their difference. */
  lemma {:induction false} DistanceIsWeight(p: seq<bool>, q: seq<bool>)
    requires |p| == |q|
    ensures Hamming(Conv(p), Conv(q)) == Weight(XorBits(p, q))
  {
    hide Shift, Out0, Out1, XorReg;
    if |p| > 0 {
      var n := |p| - 1;
      DistanceIsWeight(p[..n], q[..n]);
      assert XorBits(p, q)[..n] == XorBits(p[..n], q[..n]);
      RunXor(p, q);
      Out0Xor(Run(p), Run(q));
      Out1Xor(Run(p), Run(q));
      HammingConcat(Conv(p[..n]), Conv(q[..n]), [Out0(Run(p)), Out1(Run(p))], [Out0(Run(q)), Out1(Run(q))]);
      HammingOfTwo(Out0(Run(p)), Out1(Run(p)), Out0(Run(q)), Out1(Run(q)));
    }
  }

  lemma HammingOfTwo(a: bool, b: bool, c: bool, d: bool)
    ensures Hamming([a, b], [c, d]) == (if a != c then 1 else 0) + (if b != d then 1 else 0)
  {
    assert [a, b][..1] == [a] && [c, d][..1] == [c];
    assert [a][..0] == [] && [c][..0] == [];
    assert Hamming([a], [c]) == if a != c then 1 else 0;
  }

  // ----- minimum distance after the first difference -----

  lemma {:induction false} FirstDifference(p: seq<bool>, q: seq<bool>) returns (i: nat)
    requires |p| == |q| && p != q
    ensures i < |p| && p[i] != q[i] && p[..i] == q[..i]
  {
    if p[0] != q[0] {
      return 0;
    }
    assert p == [p[0]] + p[1..] && q == [q[0]] + q[1..];
    var j := FirstDifference(p[1..], q[1..]);
    i := j + 1;
    assert p[..i] == [p[0]] + p[1..][..j] && q[..i] == [q[0]] + q[1..][..j];
  }

  /** Two inputs that first differ at position `i` are this far apart on the air. */
  lemma MinimumDistance(p: seq<bool>, q: seq<bool>, i: nat)
    requires |p| == |q| && i < |p| && p[i] != q[i] && p[..i] == q[..i]
    ensures Hamming(Conv(p), Conv(q)) >= ColumnDistance(|p| - i)
  {
    var e := XorBits(p, q);
    assert forall j :: 0 <= j < i ==> p[..i][j] == p[j] && q[..i][j] == q[j];
    DistanceIsWeight(p, q);
    WeightFromFirstOne(e, i);
  }

  // ----- rate 1/2: correction -----

  lemma {:induction false} DistIsHamming(rx: seq<Symbol>, u: seq<bool>, bits: seq<bool>)
    requires |rx| == |u| && 2 * |bits| <= |u|
    requires forall i :: 0 <= i < |u| ==> rx[i] == Known(u[i])
    ensures Dist(rx, bits) == Hamming(u[..2 * |bits|], Conv(bits))
  {
    hide Shift, Out0, Out1;
    if |bits| > 0 {
      var n := |bits| - 1;
      DistIsHamming(rx, u, bits[..n]);
      var v := u[..2 * |bits|];
      HammingSplit(v, Conv(bits), 2 * n);
      assert v[..2 * n] == u[..2 * n];
      assert v[2 * n..] == [u[2 * n], u[2 * n + 1]];
      assert Conv(bits)[..2 * n] == Conv(bits[..n]);
      assert Conv(bits)[2 * n..] == [Out0(Run(bits)), Out1(Run(bits))];
      HammingOfTwo(u[2 * n], u[2 * n + 1], Out0(Run(bits)), Out1(Run(bits)));
    }
  }

  /** At rate 1/2 the received word is the coded bits, cut to the length of the code word. */
  lemma ReceivedHalf(data: seq<byte>, coded: seq<byte>)
    requires |coded| == |Encode(RATE_1_2, data)|
    ensures var n := 2 * (8 * |data| + TAIL_BITS);
            var rx := Received(RATE_1_2, coded, |data|);
            |Unpack(coded)| >= n && |rx| == n && forall i :: 0 <= i < n ==> rx[i] == Known(Unpack(coded)[i])
    ensures |Unpack(Encode(RATE_1_2, data))| >= 2 * (8 * |data| + TAIL_BITS)
    ensures Unpack(Encode(RATE_1_2, data))[..2 * (8 * |data| + TAIL_BITS)] == Conv(WithTail(data))
  {
    hide Conv;
    var n := 2 * (8 * |data| + TAIL_BITS);
    PunctureHalf(Conv(WithTail(data)));
    KeptCountHalf(n);
    UnpackPack(Conv(WithTail(data)));
  }

  /** Any most likely path is close to what was sent: the two distances to the received word add up. */
  lemma PathNearSent(data: seq<byte>, coded: seq<byte>, best: seq<bool>)
    requires |coded| == |Encode(RATE_1_2, data)|
    requires MaximumLikelihood(Received(RATE_1_2, coded, |data|), best)
    ensures |best| == 8 * |data| + TAIL_BITS
    ensures Hamming(Conv(WithTail(data)), Conv(best)) <= 2 * Hamming(Unpack(Encode(RATE_1_2, data)), Unpack(coded))
  {
    hide Conv;
    var sent := WithTail(data);
    var n := 2 * |sent|;
    var rx := Received(RATE_1_2, coded, |data|);
    ReceivedHalf(data, coded);
    var u, v := Unpack(coded), Unpack(Encode(RATE_1_2, data));
    DistIsHamming(rx, u[..n], sent);
    DistIsHamming(rx, u[..n], best);
    assert u[..n][..n] == u[..n];
    HammingSplit(v, u, n);
    HammingSymmetric(u[..n], Conv(sent));
    HammingTriangle(Conv(sent), u[..n], Conv(best));
  }

  /** Paths closer than the code's distance agree. */
  lemma NearPathsAgree(p: seq<bool>, q: seq<bool>, k: nat)
    requires |p| == |q| && 0 < k <= |p|
    requires Hamming(Conv(p), Conv(q)) < ColumnDistance(|p| - (k - 1))
    ensures q[..k] == p[..k]
  {
    hide Conv, Hamming;
    if q[..k] != p[..k] {
      var i := FirstDifference(p[..k], q[..k]);
      assert p[..k][..i] == p[..i] && q[..k][..i] == q[..i];
      MinimumDistance(p, q, i);
    }
  }

  /** With `t` wrong coded bits, every data bit from which the code still gathers more than `2t`
      ones before the end comes out right. */
  lemma CorrectedPrefix(data: seq<byte>, coded: seq<byte>, output: seq<byte>, k: nat)
    requires |coded| == |Encode(RATE_1_2, data)| && k <= 8 * |data|
    requires k > 0 ==> 2 * Hamming(Unpack(Encode(RATE_1_2, data)), Unpack(coded)) < ColumnDistance(8 * |data| + TAIL_BITS - (k - 1))
    requires DecodesTo(RATE_1_2, coded, |data|, output)
    ensures |output| == |data| && Unpack(output)[..k] == Unpack(data)[..k]
  {
    hide Received, Encode, WithTail, Conv, Hamming, MaximumLikelihood, Chosen;
    var best :| Chosen(Received(RATE_1_2, coded, |data|), best) && output == OutputBytes(best, |data|);
    hide OutputBytes;
    ChosenIsLikely(Received(RATE_1_2, coded, |data|), best);
    PathNearSent(data, coded, best);
    SentPrefix(data);
    var sent := WithTail(data);
    if k > 0 { NearPathsAgree(sent, best, k); }
    OutputOfPath(best, |data|);
    assert Unpack(output)[..k] == best[..k];
    assert sent[..8 * |data|][..k] == sent[..k];
  }

  lemma OutputOfPath(best: seq<bool>, n: nat)
    requires |best| >= 8 * n
    ensures |OutputBytes(best, n)| == n && Unpack(OutputBytes(best, n)) == best[..8 * n]
  {
    var bits := best[..8 * n];
    assert bits[..|bits|] == bits;
    assert OutputBytes(best, n) == PackWhole(bits);
    UnpackPackWhole(bits);
  }

  /** Single-error correction: any one flipped bit of an encoded payload, padding bits included,
      leaves the decoded payload intact and is counted as exactly one corrected error. */
  lemma CorrectsOneError(data: seq<byte>, coded: seq<byte>, output: seq<byte>)
    requires |coded| == |Encode(RATE_1_2, data)|
    requires Hamming(Unpack(Encode(RATE_1_2, data)), Unpack(coded)) == 1
    requires DecodesTo(RATE_1_2, coded, |data|, output)
    ensures output == data
    ensures BitErrors(Encode(RATE_1_2, output), coded) == 1
  {
    hide Encode, DecodesTo, Hamming;
    CorrectedPrefix(data, coded, output, 8 * |data|);
    assert Unpack(output)[..8 * |data|] == Unpack(output);
    assert Unpack(data)[..8 * |data|] == Unpack(data);
    UnpackInjective(output, data);
    WholeStrings(Encode(RATE_1_2, data), coded);
  }

  /** Payload bits at the end that up to four wrong coded bits can reach. */
  function ReachOf(errors: nat): nat {
    if errors <= 1 then 0 else if errors == 2 then 1 else if errors == 3 then 9 else 13
  }

  /** Up to four wrong coded bits, wherever they are, cost at most the last bit of the payload (two),
      its last nine (three) or its last thirteen (four). */
  lemma FewErrorsSpareAllButTheEnd(data: seq<byte>, coded: seq<byte>, output: seq<byte>)
    requires |coded| == |Encode(RATE_1_2, data)|
    requires Hamming(Unpack(Encode(RATE_1_2, data)), Unpack(coded)) <= 4
    requires DecodesTo(RATE_1_2, coded, |data|, output)
    ensures |output| == |data|
    ensures var reach := ReachOf(Hamming(Unpack(Encode(RATE_1_2, data)), Unpack(coded)));
            reach <= 8 * |data| ==>
              Unpack(output)[..8 * |data| - reach] == Unpack(data)[..8 * |data| - reach]
  {
    hide Encode, DecodesTo, Hamming;
    var reach := ReachOf(Hamming(Unpack(Encode(RATE_1_2, data)), Unpack(coded)));
    CorrectedPrefix(data, coded, output, if reach <= 8 * |data| then 8 * |data| - reach else 0);
  }

  lemma WholeStrings(a: seq<byte>, b: seq<byte>)
    requires |a| == |b|
    ensures BitErrors(a, b) == Hamming(Unpack(a), Unpack(b))
  {
    assert a[..|a|] == a && b[..|b|] == b;
  }

  // ----- both rates: the clean round trip -----

  /** On the encoder's own output, every position that is not erased carries the sent bit. */
  lemma CleanSymbol(rate: CodeRate, data: seq<byte>, i: nat)
    requires i < 2 * (8 * |data| + TAIL_BITS)
    ensures var rx := Received(rate, Encode(rate, data), |data|);
            && |rx| == 2 * (8 * |data| + TAIL_BITS)
            && rx[i] == if Kept(rate, i) then Known(Conv(WithTail(data))[i]) else ERASURE
  {
    hide Conv, Run;
    var sent := Conv(WithTail(data));
    var coded := Encode(rate, data);
    UnpackPack(Puncture(rate, sent));
    assert TrimmedBits(rate, coded, |data|) == Puncture(rate, sent);
    KeptCountHalf(|sent|);
    KeptCountHalf(i);
    if Kept(rate, i) {
      PunctureAt(rate, sent, i);
    }
  }

  lemma CleanDistance(rate: CodeRate, data: seq<byte>, k: nat)
    requires k <= 8 * |data| + TAIL_BITS
    requires |Received(rate, Encode(rate, data), |data|)| == 2 * (8 * |data| + TAIL_BITS)
    ensures Dist(Received(rate, Encode(rate, data), |data|), WithTail(data)[..k]) == 0
  {
    hide Received, Encode, WithTail;
    if k > 0 {
      var sent := WithTail(data);
      CleanDistance(rate, data, k - 1);
      assert sent[..k][..k - 1] == sent[..k - 1];
      CleanSymbol(rate, data, 2 * k - 2);
      CleanSymbol(rate, data, 2 * k - 1);
      ConvAt(sent, k - 1);
    }
  }

  /** A path that agrees with every received position costs nothing at any step. */
  lemma {:induction false} ZeroDistanceStep(rx: seq<Symbol>, bits: seq<bool>, k: nat)
    requires 2 * |bits| <= |rx| && k < |bits| && Dist(rx, bits) == 0
    ensures Cost(rx, k, Run(bits[..k + 1])) == 0
  {
    if k == |bits| - 1 {
      assert bits[..k + 1] == bits;
    } else {
      ZeroDistanceStep(rx, bits[..|bits| - 1], k);
      assert bits[..|bits| - 1][..k + 1] == bits[..k + 1];
    }
  }

  /** Both generators tap the newest bit, so the two transitions out of a register differ in both outputs. */
  lemma BranchesDiffer(r: Reg)
    ensures Out0(Shift(r, true)) != Out0(Shift(r, false))
    ensures Out1(Shift(r, true)) != Out1(Shift(r, false))
  {
  }

  /** Puncturing never drops both outputs of a step. */
  lemma KeepsOneOfEachPair(rate: CodeRate, k: nat)
    ensures Kept(rate, 2 * k) || Kept(rate, 2 * k + 1)
  {
    assert 2 * k % 6 in {0, 2, 4};
  }

  /** The zero-distance path of a clean word is unique at both rates. */
  lemma ZeroDistanceIsUnique(rate: CodeRate, data: seq<byte>, bits: seq<bool>)
    requires |bits| == 8 * |data| + TAIL_BITS
    requires |Received(rate, Encode(rate, data), |data|)| == 2 * |bits|
    requires Dist(Received(rate, Encode(rate, data), |data|), bits) == 0
    ensures bits == WithTail(data)
  {
    hide Received, Encode, WithTail, Shift, Out0, Out1;
    var sent := WithTail(data);
    var rx := Received(rate, Encode(rate, data), |data|);
    if bits != sent {
      var i := FirstDifference(bits, sent);
      ZeroDistanceStep(rx, bits, i);
      KeepsOneOfEachPair(rate, i);
      CleanSymbol(rate, data, 2 * i);
      CleanSymbol(rate, data, 2 * i + 1);
      ConvAt(sent, i);
      assert bits[..i + 1][..i] == bits[..i] && sent[..i + 1][..i] == sent[..i];
      BranchesDiffer(Run(bits[..i]));
    }
  }

  /** Clean round trip: at both rates decoding what the encoder produced gives the payload back
      and reports no corrected error. */
  lemma CleanRoundTrip(rate: CodeRate, data: seq<byte>, output: seq<byte>)
    requires DecodesTo(rate, Encode(rate, data), |data|, output)
    ensures output == data
    ensures BitErrors(Encode(rate, output), Encode(rate, data)) == 0
  {
    hide Received, Encode, WithTail, Chosen;
    var rx := Received(rate, Encode(rate, data), |data|);
    var best :| Chosen(rx, best) && output == OutputBytes(best, |data|);
    ChosenIsLikely(rx, best);
    CleanSymbol(rate, data, 0);
    CleanDistance(rate, data, 8 * |data| + TAIL_BITS);
    var sent := WithTail(data);
    assert sent[..|sent|] == sent;
    assert Dist(rx, best) <= Dist(rx, sent);
    ZeroDistanceIsUnique(rate, data, best);
    OutputOfPath(best, |data|);
    SentPrefix(data);
    UnpackInjective(output, data);
    WholeStrings(Encode(rate, output), Encode(rate, data));
    HammingZero(Unpack(Encode(rate, data)), Unpack(Encode(rate, data)));
  }

  lemma SentPrefix(data: seq<byte>)
    ensures WithTail(data)[..8 * |data|] == Unpack(data)
  {
  }
}
