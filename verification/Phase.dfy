/** The preamble on the air and the phase correction the receiver takes from it, src/encoder.cpp and
    src/decoder.cpp. The magnitude of a complex number is a parameter. */
module Phase {
  import opened Basics
  import opened SymbolMapper

  const ONE := Symbol(1.0, 0.0)

  function Plus(a: Symbol, b: Symbol): Symbol { Symbol(a.re + b.re, a.im + b.im) }

  function Times(a: Symbol, b: Symbol): Symbol {
    Symbol(a.re * b.re - a.im * b.im, a.re * b.im + a.im * b.re)
  }

  function Conj(a: Symbol): Symbol { Symbol(a.re, -a.im) }

  /** Every symbol multiplied by the same number: a channel that turns and scales, or its correction. */
  function Turned(symbols: seq<Symbol>, z: Symbol): (t: seq<Symbol>)
    ensures |t| == |symbols|
  {
    seq(|symbols|, i requires 0 <= i < |symbols| => Times(symbols[i], z))
  }

  function BpskSymbol(bit: bool): Symbol { Symbol(if bit then -1.0 else 1.0, 0.0) }

  function BpskMap(bits: seq<bool>): (symbols: seq<Symbol>)
    ensures |symbols| == |bits|
  {
    seq(|bits|, i requires 0 <= i < |bits| => BpskSymbol(bits[i]))
  }

  method BpskMapPreamble(bits: seq<bool>) returns (symbols: seq<Symbol>)
    ensures symbols == BpskMap(bits)
  {
    symbols := [];
    for i := 0 to |bits|
      invariant |symbols| == i && forall k :: 0 <= k < i ==> symbols[k] == BpskSymbol(bits[k])
    {
      symbols := symbols + [Symbol(if !bits[i] then 1.0 else -1.0, 0.0)];
    }
  }

  /** The first `n` products of received symbols and conjugate reference symbols, added up. */
  function Correlation(received: seq<Symbol>, reference: seq<Symbol>, n: nat): Symbol
    requires n <= |received| && n <= |reference|
  {
    if n == 0 then Symbol(0.0, 0.0)
    else Plus(Correlation(received, reference, n - 1), Times(received[n - 1], Conj(reference[n - 1])))
  }

  /** A correlation too weak to tell a phase is not corrected. */
  function CorrectionOf(corr: Symbol, mag: real): Symbol {
    if mag < 0.0000000001 then ONE else Symbol(corr.re / mag, -corr.im / mag)
  }

  function PhaseCorrection(received: seq<Symbol>, reference: seq<Symbol>, magnitude: Symbol -> real): Symbol {
    var corr := Correlation(received, reference, Min(|received|, |reference|));
    CorrectionOf(corr, magnitude(corr))
  }

  method EstimatePhaseCorrection(received: seq<Symbol>, reference: seq<Symbol>, magnitude: Symbol -> real)
    returns (correction: Symbol)
    ensures correction == PhaseCorrection(received, reference, magnitude)
  {
    var corr := Symbol(0.0, 0.0);
    var len := Min(|received|, |reference|);
    for i := 0 to len
      invariant corr == Correlation(received, reference, i)
    {
      corr := Plus(corr, Times(received[i], Conj(reference[i])));
    }
    var mag := magnitude(corr);
    if mag < 0.0000000001 { return ONE; }
    correction := Symbol(Conj(corr).re / mag, Conj(corr).im / mag);
  }

  /** A correlation below 10^-10 is left alone. */
  lemma WeakIsUncorrected(received: seq<Symbol>, reference: seq<Symbol>, magnitude: Symbol -> real)
    requires magnitude(Correlation(received, reference, Min(|received|, |reference|))) < 0.0000000001
    ensures PhaseCorrection(received, reference, magnitude) == Symbol(1.0, 0.0)
  {
  }

  /** What the receiver multiplies the data symbols by: the phase of the preamble in front of them, if
      there is a whole preamble. */
  function CorrectionAt(recovered: seq<Symbol>, start: nat, preamble: seq<bool>, magnitude: Symbol -> real): Symbol
    requires start <= |recovered|
  {
    if start < |preamble| then ONE
    else PhaseCorrection(recovered[start - |preamble|..start], BpskMap(preamble), magnitude)
  }

  /** The data symbols the receiver goes on with. */
  function CorrectedFrom(recovered: seq<Symbol>, start: nat, preamble: seq<bool>, magnitude: Symbol -> real): seq<Symbol>
    requires start <= |recovered|
  {
    Turned(recovered[start..], CorrectionAt(recovered, start, preamble, magnitude))
  }

  method CorrectPhase(recovered: seq<Symbol>, start: nat, preamble: seq<bool>, magnitude: Symbol -> real)
    returns (dataSymbols: seq<Symbol>)
    requires start <= |recovered|
    ensures dataSymbols == CorrectedFrom(recovered, start, preamble, magnitude)
  {
    var correction := ONE;
    if start >= |preamble| {
      var reference := BpskMapPreamble(preamble);
      correction := EstimatePhaseCorrection(recovered[start - |preamble|..start], reference, magnitude);
    }
    var uncorrected := recovered[start..];
    dataSymbols := [];
    for i := 0 to |uncorrected|
      invariant |dataSymbols| == i && forall k :: 0 <= k < i ==> dataSymbols[k] == Times(uncorrected[k], correction)
    {
      dataSymbols := dataSymbols + [Times(uncorrected[i], correction)];
    }
  }

  // ----- the correction undoes the channel -----

  /** `m` is the absolute value of `z`. */
  predicate IsMagnitude(m: real, z: Symbol) {
    m >= 0.0 && m * m == z.re * z.re + z.im * z.im
  }

  function Scaled(a: Symbol, k: real): Symbol { Symbol(a.re * k, a.im * k) }

  lemma TimesReference(bit: bool, z: Symbol)
    ensures Times(Times(BpskSymbol(bit), z), Conj(BpskSymbol(bit))) == z
  {
  }

  /** A preamble that was only turned and scaled adds up in phase: its correlation with the reference
      is its length times what the channel did. */
  lemma {:induction false} PreambleAddsUp(preamble: seq<bool>, z: Symbol, n: nat)
    requires n <= |preamble|
    ensures Correlation(Turned(BpskMap(preamble), z), BpskMap(preamble), n) == Scaled(z, n as real)
  {
    hide Times, BpskSymbol, Conj, Scaled, Plus;
    if n > 0 {
      PreambleAddsUp(preamble, z, n - 1);
      TimesReference(preamble[n - 1], z);
      OneMore(z, n - 1);
    } else {
      NoneYet(z);
    }
  }

  lemma NoneYet(z: Symbol)
    ensures Scaled(z, 0.0) == Symbol(0.0, 0.0)
  {
  }

  lemma OneMore(z: Symbol, n: nat)
    ensures Plus(Scaled(z, n as real), z) == Scaled(z, (n + 1) as real)
  {
    var r := n as real;
    assert (n + 1) as real == r + 1.0;
    assert z.re * (r + 1.0) == z.re * r + z.re && z.im * (r + 1.0) == z.im * r + z.im;
  }

  lemma ZeroFactor(x: real, y: real)
    requires x * y == 0.0 && y > 0.0
    ensures x == 0.0
  {
  }

  lemma SquareRootIsUnique(a: real, b: real)
    requires a >= 0.0 && b >= 0.0 && a * a == b * b
    ensures a == b
  {
    if a != b {
      assert (a - b) * (a + b) == 0.0;
      ZeroFactor(a - b, a + b);
    }
  }

  lemma ScaledMagnitude(m: real, gain: real, z: Symbol, n: real)
    requires IsMagnitude(gain, z) && IsMagnitude(m, Scaled(z, n)) && n >= 0.0
    ensures m == gain * n
  {
    assert (z.re * n) * (z.re * n) == (z.re * z.re) * (n * n);
    assert (z.im * n) * (z.im * n) == (z.im * z.im) * (n * n);
    assert m * m == (gain * gain) * (n * n) == (gain * n) * (gain * n);
    assert gain * n >= 0.0;
    SquareRootIsUnique(m, gain * n);
  }

  lemma CancelFactor(x: real, n: real, g: real)
    requires n > 0.0 && g > 0.0
    ensures g * n > 0.0 && x * n / (g * n) == x / g
  {
    assert x == (x / g) * g;
    assert x * n == (x / g) * (g * n);
  }

  lemma CorrectionIsInverse(z: Symbol, n: real, gain: real, m: real)
    requires n > 0.0 && gain > 0.0 && m == gain * n && m >= 0.0000000001
    ensures CorrectionOf(Scaled(z, n), m) == Inverse(z, gain)
  {
    CancelFactor(z.re, n, gain);
    CancelFactor(-z.im, n, gain);
    assert -(z.im * n) == (-z.im) * n;
  }

  lemma QuotientIs(x: real, g: real, q: real)
    requires g > 0.0 && q * g == x
    ensures x / g == q
  {
    ZeroFactor(x / g - q, g);
  }

  /** What undoes a turn, up to the gain. */
  function Inverse(z: Symbol, gain: real): Symbol
    requires gain > 0.0
  {
    Symbol(z.re / gain, -z.im / gain)
  }

  lemma InverseParts(z: Symbol, gain: real) returns (c: real, s: real)
    requires gain > 0.0
    ensures c * gain == z.re && s * gain == z.im && Inverse(z, gain) == Symbol(c, -s)
  {
    c, s := z.re / gain, z.im / gain;
    QuotientIs(-z.im, gain, -s);
  }

  lemma TimesTurn(t: Symbol, c: real, s: real)
    ensures Times(t, Symbol(c, -s)) == Symbol(t.re * c + t.im * s, t.im * c + (-t.re) * s)
  {
  }

  /** Turned by the channel and corrected, a symbol is only scaled. */
  lemma UndoesChannel(a: Symbol, z: Symbol, gain: real)
    requires gain > 0.0 && IsMagnitude(gain, z)
    ensures Times(Times(a, z), Inverse(z, gain)) == Scaled(a, gain)
  {
    hide Times, IsMagnitude, Inverse;
    var c, s := InverseParts(z, gain);
    var t := Times(a, z);
    TimesTurn(t, c, s);
    Back(t.re, t.im, c, s, gain, z);
    Back(t.im, -t.re, c, s, gain, z);
    SquaresAddUp(a, z, gain);
    CancelGain(t.re * c + t.im * s, a.re * gain, gain);
    CancelGain(t.im * c + (-t.re) * s, a.im * gain, gain);
  }

  lemma Back(x: real, y: real, c: real, s: real, gain: real, z: Symbol)
    requires c * gain == z.re && s * gain == z.im
    ensures (x * c + y * s) * gain == x * z.re + y * z.im
  {
    assert (x * c) * gain == x * (c * gain) && (y * s) * gain == y * (s * gain);
  }

  lemma SquaresAddUp(a: Symbol, z: Symbol, gain: real)
    requires IsMagnitude(gain, z)
    ensures var t := Times(a, z);
            && t.re * z.re + t.im * z.im == (a.re * gain) * gain
            && t.im * z.re + (-t.re) * z.im == (a.im * gain) * gain
  {
    var t := Times(a, z);
    assert t.re * z.re + t.im * z.im == a.re * (z.re * z.re + z.im * z.im);
    assert t.im * z.re + (-t.re) * z.im == a.im * (z.re * z.re + z.im * z.im);
  }

  lemma CancelGain(x: real, y: real, gain: real)
    requires gain > 0.0 && x * gain == y * gain
    ensures x == y
  {
    ZeroFactor(x - y, gain);
  }

  /** Behind a preamble that went through the same channel, every data symbol comes out as it was sent,
      up to the gain. */
  lemma ChannelIsUndone(sent: seq<Symbol>, start: nat, preamble: seq<bool>, z: Symbol, gain: real, magnitude: Symbol -> real)
    requires |preamble| <= start <= |sent| && sent[start - |preamble|..start] == BpskMap(preamble)
    requires gain > 0.0 && IsMagnitude(gain, z) && gain * |preamble| as real >= 0.0000000001
    requires IsMagnitude(magnitude(Scaled(z, |preamble| as real)), Scaled(z, |preamble| as real))
    ensures CorrectedFrom(Turned(sent, z), start, preamble, magnitude)
            == seq(|sent| - start, i requires 0 <= i < |sent| - start => Scaled(sent[start + i], gain))
  {
    hide Times, Correlation, CorrectionOf, IsMagnitude, Scaled, BpskSymbol, Inverse;
    var n := |preamble|;
    var received := Turned(sent, z);
    assert received[start - n..start] == Turned(sent[start - n..start], z);
    PreambleAddsUp(preamble, z, n);
    ScaledMagnitude(magnitude(Scaled(z, n as real)), gain, z, n as real);
    CorrectionIsInverse(z, n as real, gain, magnitude(Scaled(z, n as real)));
    var preambleSeen := received[start - n..start];
    assert Min(|preambleSeen|, |BpskMap(preamble)|) == n;
    assert PhaseCorrection(preambleSeen, BpskMap(preamble), magnitude) == Inverse(z, gain);
    assert CorrectionAt(received, start, preamble, magnitude) == Inverse(z, gain);
    forall i | 0 <= i < |sent| - start ensures CorrectedFrom(received, start, preamble, magnitude)[i] == Scaled(sent[start + i], gain) {
      UndoesChannel(sent[start + i], z, gain);
      assert received[start..][i] == Times(sent[start + i], z);
    }
  }

  /** Hard decisions do not depend on the gain. */
  lemma DecisionsIgnoreGain(symbols: seq<Symbol>, gain: real)
    requires gain > 0.0
    ensures Demap(seq(|symbols|, i requires 0 <= i < |symbols| => Scaled(symbols[i], gain))) == Demap(symbols)
  {
    hide SymbolToDibit, Scaled;
    forall i | 0 <= i < |symbols| ensures SymbolToDibit(Scaled(symbols[i], gain)) == SymbolToDibit(symbols[i]) {
      DecisionIgnoresGain(symbols[i], gain);
    }
  }

  lemma DecisionIgnoresGain(a: Symbol, gain: real)
    requires gain > 0.0
    ensures SymbolToDibit(Scaled(a, gain)) == SymbolToDibit(a)
  {
    SignStays(a.re, gain);
    SignStays(a.im, gain);
  }

  lemma SignStays(x: real, gain: real)
    requires gain > 0.0
    ensures (x * gain > 0.0 <==> x > 0.0) && (x * gain >= 0.0 <==> x >= 0.0)
  {
    if x < 0.0 { assert x * gain < 0.0; }
  }
}
