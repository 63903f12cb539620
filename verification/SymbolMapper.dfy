/** Gray-coded QPSK mapping, src/symbol_mapper.cpp, with symbols as points of the plane. */
module SymbolMapper {

  datatype Symbol = Symbol(re: real, im: real)

  const S: real := 0.7071067811865476

  /** Constellation points by dibit value: 00, 01, 10, 11. */
  function ConstellationPoint(dibit: nat): Symbol
    requires dibit < 4
  {
    if dibit == 0 then Symbol(S, S)
    else if dibit == 1 then Symbol(-S, S)
    else if dibit == 2 then Symbol(S, -S)
    else Symbol(-S, -S)
  }

  /** Hard decision by quadrant, with the source's treatment of the axes. */
  function SymbolToDibit(sym: Symbol): (d: nat)
    ensures d < 4
  {
    if sym.re > 0.0 && sym.im >= 0.0 then 0
    else if sym.re <= 0.0 && sym.im > 0.0 then 1
    else if sym.re <= 0.0 && sym.im <= 0.0 then 3
    else 2
  }

  function DibitOf(b0: bool, b1: bool): nat {
    2 * (if b0 then 1 else 0) + if b1 then 1 else 0
  }

  function Padding(bits: seq<bool>): nat { |bits| % 2 }

  function Padded(bits: seq<bool>): (p: seq<bool>)
    ensures |p| % 2 == 0
  {
    if |bits| % 2 != 0 then bits + [false] else bits
  }

  function MapBits(bits: seq<bool>): (symbols: seq<Symbol>)
    ensures |symbols| == (|bits| + 1) / 2
  {
    var p := Padded(bits);
    seq(|p| / 2, k requires 0 <= k < |p| / 2 => ConstellationPoint(DibitOf(p[2 * k], p[2 * k + 1])))
  }

  function DemapBit(symbols: seq<Symbol>, i: nat): bool
    requires i < 2 * |symbols|
  {
    var dibit := SymbolToDibit(symbols[i / 2]);
    if i % 2 == 0 then dibit / 2 % 2 == 1 else dibit % 2 == 1
  }

  function Demap(symbols: seq<Symbol>): (bits: seq<bool>)
    ensures |bits| == 2 * |symbols|
  {
    seq(2 * |symbols|, i requires 0 <= i < 2 * |symbols| => DemapBit(symbols, i))
  }

  method MapMethod(bits: seq<bool>) returns (symbols: seq<Symbol>, padding: nat)
    ensures symbols == MapBits(bits) && padding == Padding(bits)
  {
    padding := 0;
    var paddedBits := bits;
    if |paddedBits| % 2 != 0 {
      paddedBits := paddedBits + [false];
      padding := 1;
    }
    symbols := [];
    var i := 0;
    while i < |paddedBits|
      invariant i % 2 == 0 && i <= |paddedBits| && |symbols| == i / 2
      invariant forall k :: 0 <= k < i / 2 ==>
                  symbols[k] == ConstellationPoint(DibitOf(paddedBits[2 * k], paddedBits[2 * k + 1]))
    {
      symbols := symbols + [ConstellationPoint(DibitOf(paddedBits[i], paddedBits[i + 1]))];
      i := i + 2;
    }
  }

  method DemapMethod(symbols: seq<Symbol>) returns (bits: seq<bool>)
    ensures bits == Demap(symbols)
  {
    bits := [];
    for n := 0 to |symbols|
      invariant |bits| == 2 * n
      invariant forall i :: 0 <= i < 2 * n ==> bits[i] == DemapBit(symbols, i)
    {
      var dibit := SymbolToDibit(symbols[n]);
      bits := bits + [dibit / 2 % 2 == 1];
      bits := bits + [dibit % 2 == 1];
    }
  }

  /** Demapping mapped bits, whatever symbols follow, gives the bits back. */
  lemma DemapOfMap(bits: seq<bool>, trailing: seq<Symbol>)
    ensures |Demap(MapBits(bits) + trailing)| >= |bits|
    ensures Demap(MapBits(bits) + trailing)[..|bits|] == bits
  {
    var symbols := MapBits(bits);
    var p := Padded(bits);
    forall i | 0 <= i < |bits| ensures Demap(symbols + trailing)[i] == bits[i] {
      var k := i / 2;
      assert (symbols + trailing)[k] == ConstellationPoint(DibitOf(p[2 * k], p[2 * k + 1]));
      assert SymbolToDibit(symbols[k]) == DibitOf(p[2 * k], p[2 * k + 1]);
    }
  }

  lemma DemapPrefix(symbols: seq<Symbol>, n: nat)
    requires n <= |symbols|
    ensures Demap(symbols[..n]) == Demap(symbols)[..2 * n]
  {
  }

  /** On the unit circle, up to the rounding of the constant. */
  predicate NearUnitCircle(sym: Symbol) {
    var power := sym.re * sym.re + sym.im * sym.im;
    0.999999999999999 <= power <= 1.000000000000001
  }

  /** Every mapped symbol: unit power, the first bit the sign of the imaginary part and the second that
      of the real part, so that neighbouring points differ in one bit. */
  lemma MappedSymbol(bits: seq<bool>, k: nat)
    requires 2 * k < |bits|
    ensures var sym := MapBits(bits)[k];
            && NearUnitCircle(sym)
            && (sym.im < 0.0 <==> bits[2 * k])
            && (sym.re < 0.0 <==> 2 * k + 1 < |bits| && bits[2 * k + 1])
  {
    var p := Padded(bits);
    assert MapBits(bits)[k] == ConstellationPoint(DibitOf(p[2 * k], p[2 * k + 1]));
  }
}
