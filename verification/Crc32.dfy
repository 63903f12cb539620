/** CRC-32 (reflected polynomial 0xEDB88320), src/frame_builder.cpp: the table-driven form, the
    bit-serial form it refines, and what it is sure to detect. */
module Crc32 {
  import opened Bits

  const POLY: nat := 0xEDB8_8320
  const INIT: nat := 0xFFFF_FFFF

  /** One shift of the reflected register. */
  function BitStep(x: nat): nat {
    if x % 2 == 1 then Xor(x / 2, POLY) else x / 2
  }

  function Steps(x: nat, n: nat): nat
    decreases n
  {
    if n == 0 then x else Steps(BitStep(x), n - 1)
  }

  /** One table step: `TABLE[(crc ^ byte) & 0xFF] ^ (crc >> 8)`; a table entry is eight shifts. */
  function Update(crc: nat, b: byte): nat {
    Xor(Steps(Xor(crc, b) % 256, 8), crc / 256)
  }

  function UpdateAll(crc: nat, data: seq<byte>): nat {
    if |data| == 0 then crc else Update(UpdateAll(crc, data[..|data| - 1]), data[|data| - 1])
  }

  function Crc(data: seq<byte>): nat {
    Xor(UpdateAll(INIT, data), INIT)
  }

  // ----- the code -----

  method MakeCrc32Table() returns (table: array<nat>)
    ensures fresh(table) && table.Length == 256
    ensures forall i :: 0 <= i < 256 ==> table[i] == Steps(i, 8)
  {
    hide Steps;
    table := new nat[256](i => 0);
    for i := 0 to 256
      invariant forall k :: 0 <= k < i ==> table[k] == Steps(k, 8)
    {
      table[i] := MakeEntry(i);
    }
  }

  method MakeEntry(i: nat) returns (crc: nat)
    ensures crc == Steps(i, 8)
  {
    hide Xor;
    crc := i;
    for j := 0 to 8
      invariant Steps(crc, 8 - j) == Steps(i, 8)
    {
      if crc % 2 == 1 {
        crc := Xor(crc / 2, 0xEDB8_8320);
      } else {
        crc := crc / 2;
      }
    }
  }

  method ComputeCrc32(data: seq<byte>) returns (crc: nat)
    ensures crc == Crc(data)
  {
    hide Steps, Xor;
    var table := MakeCrc32Table();
    crc := 0xFFFF_FFFF;
    for i := 0 to |data|
      invariant crc == UpdateAll(INIT, data[..i])
    {
      crc := Xor(table[Xor(crc, data[i]) % 256], crc / 256);
      assert data[..i + 1][..i] == data[..i];
    }
    assert data[..|data|] == data;
    crc := Xor(crc, 0xFFFF_FFFF);
  }

  // ----- the bit-serial form -----

  /** The defining form: shift one message bit in, feeding back the polynomial when the bit that
      falls out, after adding the message bit, is one. */
  function SerialStep(crc: nat, bit: bool): nat {
    var feedback := (crc % 2 == 1) != bit;
    if feedback then Xor(crc / 2, POLY) else crc / 2
  }

  function Serial(crc: nat, bits: seq<bool>): nat
    decreases |bits|
  {
    if |bits| == 0 then crc else Serial(SerialStep(crc, bits[0]), bits[1..])
  }

  /** The low `n` bits, least significant first: the order of a reflected CRC. */
  function LowFirst(x: nat, n: nat): (b: seq<bool>)
    ensures |b| == n
  {
    if n == 0 then [] else [x % 2 == 1] + LowFirst(x / 2, n - 1)
  }

  function MessageBits(data: seq<byte>): (m: seq<bool>)
    ensures |m| == 8 * |data|
  {
    if |data| == 0 then [] else MessageBits(data[..|data| - 1]) + LowFirst(data[|data| - 1], 8)
  }

  lemma {:induction false} SerialConcat(crc: nat, a: seq<bool>, b: seq<bool>)
    ensures Serial(crc, a + b) == Serial(Serial(crc, a), b)
    decreases |a|
  {
    if |a| == 0 {
      assert a + b == b;
    } else {
      assert (a + b)[1..] == a[1..] + b;
      SerialConcat(SerialStep(crc, a[0]), a[1..], b);
    }
  }

  lemma BitStepLinear(x: nat, y: nat)
    ensures BitStep(Xor(x, y)) == Xor(BitStep(x), BitStep(y))
  {
    hide Xor;
    var a, b := x / 2, y / 2;
    XorStep(x, y);
    XorAssociates(a, b, POLY);
    XorAssociates(a, POLY, b);
    XorAssociates(a, POLY, Xor(b, POLY));
    XorAssociates(POLY, b, POLY);
    XorCommutes(POLY, b);
    XorAssociates(b, POLY, POLY);
    XorIsZero(POLY, POLY);
    XorZero(b);
  }

  lemma {:induction false} StepsLinear(x: nat, y: nat, n: nat)
    ensures Steps(Xor(x, y), n) == Xor(Steps(x, n), Steps(y, n))
    decreases n
  {
    hide Xor, BitStep;
    if n > 0 {
      BitStepLinear(x, y);
      StepsLinear(BitStep(x), BitStep(y), n - 1);
    }
  }

  /** `y << n`. */
  function ShiftUp(y: nat, n: nat): nat {
    if n == 0 then y else 2 * ShiftUp(y, n - 1)
  }

  lemma ShiftUpByte(y: nat)
    ensures ShiftUp(y, 8) == 256 * y
  {
    assert ShiftUp(y, 1) == 2 * y;
    assert ShiftUp(y, 2) == 2 * ShiftUp(y, 1);
    assert ShiftUp(y, 4) == 4 * ShiftUp(y, 2);
    assert ShiftUp(y, 6) == 4 * ShiftUp(y, 4);
    assert ShiftUp(y, 8) == 4 * ShiftUp(y, 6);
  }

  /** Shifting out zeros only shifts. */
  lemma {:induction false} StepsOfShifted(y: nat, n: nat)
    ensures Steps(ShiftUp(y, n), n) == y
    decreases n
  {
    if n > 0 {
      StepsOfShifted(y, n - 1);
    }
  }

  lemma {:induction false} XorOfDisjoint(low: nat, high: nat, n: nat)
    requires low < Pow2(n)
    ensures Xor(low, ShiftUp(high, n)) == low + ShiftUp(high, n)
    decreases n
  {
    if n == 0 {
      XorZero(high);
    } else {
      XorOfDisjoint(low / 2, high, n - 1);
      XorStep(low, ShiftUp(high, n));
    }
  }

  /** Adding a byte and shifting eight times is feeding its bits in one at a time. */
  lemma {:induction false} StepsAreSerial(crc: nat, y: nat, n: nat)
    requires y < Pow2(n)
    ensures Steps(Xor(crc, y), n) == Serial(crc, LowFirst(y, n))
    decreases n
  {
    hide Xor;
    if n == 0 {
      XorZero(crc);
    } else {
      var bits := LowFirst(y, n);
      assert bits[1..] == LowFirst(y / 2, n - 1);
      XorStep(crc, y);
      var low := SerialStep(crc, bits[0]);
      AddThenStep(crc, y);
      StepsAreSerial(low, y / 2, n - 1);
    }
  }

  lemma AddThenStep(crc: nat, y: nat)
    ensures BitStep(Xor(crc, y)) == Xor(SerialStep(crc, y % 2 == 1), y / 2)
  {
    hide Xor;
    XorStep(crc, y);
    XorAssociates(crc / 2, y / 2, POLY);
    XorAssociates(crc / 2, POLY, y / 2);
    XorCommutes(y / 2, POLY);
  }

  lemma {:induction false} HighBits(x: nat, y: nat, n: nat)
    requires y < Pow2(n)
    ensures ShiftDown(Xor(x, y), n) == ShiftDown(x, n)
    decreases n
  {
    if n == 0 {
      XorZero(x);
    } else {
      XorStep(x, y);
      HighBits(x / 2, y / 2, n - 1);
    }
  }

  /** `x >> n`. */
  function ShiftDown(x: nat, n: nat): nat
    decreases n
  {
    if n == 0 then x else ShiftDown(x / 2, n - 1)
  }

  lemma ShiftDownByte(x: nat)
    ensures ShiftDown(x, 8) == x / 256
  {
    assert ShiftDown(x, 4) == x / 16;
    assert ShiftDown(x, 8) == ShiftDown(x / 16, 4);
  }

  /** The table step is eight shifts of the register with the byte added in. */
  lemma UpdateIsSteps(crc: nat, b: byte)
    ensures Update(crc, b) == Steps(Xor(crc, b), 8)
  {
    hide Steps, Xor;
    var x := Xor(crc, b);
    var low, high := x % 256, x / 256;
    Pow2Of8();
    ShiftUpByte(high);
    XorOfDisjoint(low, high, 8);
    StepsLinear(low, ShiftUp(high, 8), 8);
    StepsOfShifted(high, 8);
    HighBits(crc, b, 8);
    ShiftDownByte(x);
    ShiftDownByte(crc);
  }

  /** The table-driven CRC is the bit-serial one, on every byte sequence. */
  lemma {:induction false} TableDrivenIsBitSerial(data: seq<byte>)
    ensures UpdateAll(INIT, data) == Serial(INIT, MessageBits(data))
  {
    if |data| > 0 {
      var n := |data| - 1;
      TableDrivenIsBitSerial(data[..n]);
      UpdateIsSteps(UpdateAll(INIT, data[..n]), data[n]);
      Pow2Of8();
      StepsAreSerial(UpdateAll(INIT, data[..n]), data[n], 8);
      SerialConcat(INIT, MessageBits(data[..n]), LowFirst(data[n], 8));
    }
  }

  // ----- error detection -----

  lemma Pow2Of32()
    ensures Pow2(32) == 0x1_0000_0000 && Pow2(24) == 0x100_0000
  {
    Pow2Of8();
    Pow2Plus8(8);
    Pow2Plus8(16);
    Pow2Plus8(24);
  }

  lemma Pow2Plus8(n: nat)
    ensures Pow2(n + 8) == 256 * Pow2(n)
  {
    assert Pow2(n + 2) == 4 * Pow2(n);
    assert Pow2(n + 4) == 4 * Pow2(n + 2);
    assert Pow2(n + 6) == 4 * Pow2(n + 4);
    assert Pow2(n + 8) == 4 * Pow2(n + 6);
  }

  predicate Word(x: nat) { x < 0x1_0000_0000 }

  lemma XorOfWords(x: nat, y: nat)
    requires Word(x) && Word(y)
    ensures Word(Xor(x, y))
  {
    Pow2Of32();
    XorBound(x, y, 32);
  }

  /** The polynomial has its top bit set, so a shift forgets nothing. */
  lemma BitStepKernel(z: nat)
    requires Word(z)
    ensures Word(BitStep(z))
    ensures BitStep(z) == 0 ==> z == 0
  {
    XorOfWords(z / 2, POLY);
    XorIsZero(z / 2, POLY);
  }

  lemma {:induction false} StepsKernel(z: nat, n: nat)
    requires Word(z)
    ensures Word(Steps(z, n))
    ensures Steps(z, n) == 0 ==> z == 0
    decreases n
  {
    hide BitStep;
    if n > 0 {
      BitStepKernel(z);
      StepsKernel(BitStep(z), n - 1);
    }
  }

  lemma UpdateIsWord(crc: nat, b: byte)
    requires Word(crc)
    ensures Word(Update(crc, b))
  {
    XorOfWords(crc, b);
    UpdateIsSteps(crc, b);
    StepsKernel(Xor(crc, b), 8);
  }

  lemma {:induction false} UpdateAllIsWord(crc: nat, data: seq<byte>)
    requires Word(crc)
    ensures Word(UpdateAll(crc, data))
  {
    hide Update;
    if |data| > 0 {
      UpdateAllIsWord(crc, data[..|data| - 1]);
      UpdateIsWord(UpdateAll(crc, data[..|data| - 1]), data[|data| - 1]);
    }
  }

  lemma XorExchange(a: nat, b: nat, c: nat, d: nat)
    ensures Xor(Xor(a, b), Xor(c, d)) == Xor(Xor(a, c), Xor(b, d))
  {
    hide Xor;
    XorAssociates(a, b, Xor(c, d));
    XorAssociates(b, c, d);
    XorCommutes(b, c);
    XorAssociates(c, b, d);
    XorAssociates(a, c, Xor(b, d));
  }

  lemma XorCancels(x: nat, y: nat)
    ensures Xor(Xor(x, y), y) == x
  {
    hide Xor;
    XorAssociates(x, y, y);
    XorIsZero(y, y);
    XorZero(x);
  }

  /** Running one byte backwards: a small difference after it fixes the difference before it. */
  lemma BackOneByte(c: nat, d: nat, b: byte, e: byte, delta: nat)
    requires Word(c) && Word(d) && delta < 0x100_0000
    requires Xor(Update(c, b), Update(d, e)) == delta
    ensures Xor(c, d) == 256 * delta + Xor(b, e)
  {
    hide Xor, Steps, Update;
    var z := Xor(Xor(c, b), Xor(d, e));
    UpdateIsSteps(c, b);
    UpdateIsSteps(d, e);
    StepsLinear(Xor(c, b), Xor(d, e), 8);
    ShiftUpByte(delta);
    StepsOfShifted(delta, 8);
    StepsLinear(z, 256 * delta, 8);
    XorIsZero(delta, delta);
    XorOfWords(c, b);
    XorOfWords(d, e);
    XorOfWords(Xor(c, b), Xor(d, e));
    XorOfWords(z, 256 * delta);
    StepsKernel(Xor(z, 256 * delta), 8);
    XorIsZero(z, 256 * delta);
    XorExchange(c, b, d, e);
    XorCancels(Xor(c, d), Xor(b, e));
    Pow2Of8();
    XorBound(b, e, 8);
    XorOfDisjoint(Xor(b, e), delta, 8);
    XorCommutes(Xor(b, e), 256 * delta);
  }

  /** The difference of two equally long byte strings as one little-endian number. */
  function Diff(w: seq<byte>, v: seq<byte>): nat
    requires |w| == |v|
  {
    if |w| == 0 then 0 else 256 * Diff(w[1..], v[1..]) + Xor(w[0], v[0])
  }

  lemma {:induction false} DiffBound(w: seq<byte>, v: seq<byte>)
    requires |w| == |v|
    ensures Diff(w, v) < Pow2(8 * |w|)
    ensures Diff(w, v) == 0 ==> w == v
  {
    hide Xor;
    if |w| > 0 {
      DiffBound(w[1..], v[1..]);
      Pow2Of8();
      XorBound(w[0], v[0], 8);
      XorIsZero(w[0], v[0]);
      Pow2Plus8(8 * |w| - 8);
      assert w == [w[0]] + w[1..] && v == [v[0]] + v[1..];
    }
  }

  lemma {:induction false} UpdateAllConcat(crc: nat, a: seq<byte>, b: seq<byte>)
    ensures UpdateAll(crc, a + b) == UpdateAll(UpdateAll(crc, a), b)
  {
    hide Update;
    if |b| == 0 {
      assert a + b == a;
    } else {
      assert (a + b)[..|a + b| - 1] == a + b[..|b| - 1];
      UpdateAllConcat(crc, a, b[..|b| - 1]);
    }
  }

  /** Registers that agree after a window of up to four bytes differ before it by the window's difference. */
  lemma {:induction false} BackOverWindow(c: nat, d: nat, w: seq<byte>, v: seq<byte>)
    requires Word(c) && Word(d) && |w| == |v| <= 4
    requires UpdateAll(c, w) == UpdateAll(d, v)
    ensures Xor(c, d) == Diff(w, v)
    decreases |w|
  {
    hide Update, Xor;
    if |w| == 0 {
      XorIsZero(c, d);
    } else {
      var c1, d1 := Update(c, w[0]), Update(d, v[0]);
      UpdateIsWord(c, w[0]);
      UpdateIsWord(d, v[0]);
      assert w == [w[0]] + w[1..] && v == [v[0]] + v[1..];
      UpdateAllConcat(c, [w[0]], w[1..]);
      UpdateAllConcat(d, [v[0]], v[1..]);
      UpdateAllOne(c, w[0]);
      UpdateAllOne(d, v[0]);
      BackOverWindow(c1, d1, w[1..], v[1..]);
      DiffBound(w[1..], v[1..]);
      Pow2Monotone(8 * |w| - 8, 24);
      Pow2Of32();
      BackOneByte(c, d, w[0], v[0], Diff(w[1..], v[1..]));
    }
  }

  lemma UpdateAllOne(crc: nat, b: byte)
    ensures UpdateAll(crc, [b]) == Update(crc, b)
  {
    assert [b][..0] == [];
  }

  lemma {:induction false} SuffixInjective(c: nat, d: nat, data: seq<byte>)
    requires Word(c) && Word(d) && UpdateAll(c, data) == UpdateAll(d, data)
    ensures c == d
  {
    hide Update, Xor;
    if |data| > 0 {
      var n := |data| - 1;
      var c1, d1 := UpdateAll(c, data[..n]), UpdateAll(d, data[..n]);
      UpdateAllIsWord(c, data[..n]);
      UpdateAllIsWord(d, data[..n]);
      XorIsZero(Update(c1, data[n]), Update(d1, data[n]));
      XorIsZero(data[n], data[n]);
      BackOneByte(c1, d1, data[n], data[n], 0);
      XorIsZero(c1, d1);
      SuffixInjective(c, d, data[..n]);
    }
  }

  /** Two messages of the same length that differ, but only within four consecutive bytes, never
      have the same CRC. */
  lemma DetectsFourByteBurst(a: seq<byte>, b: seq<byte>, i: nat)
    requires |a| == |b| && a != b
    requires forall j :: 0 <= j < |a| && !(i <= j < i + 4) ==> a[j] == b[j]
    ensures Crc(a) != Crc(b)
  {
    hide Update, Xor;
    var lo := if i < |a| then i else |a|;
    var hi := if i + 4 < |a| then i + 4 else |a|;
    if Crc(a) == Crc(b) {
      XorCancels(UpdateAll(INIT, a), INIT);
      XorCancels(UpdateAll(INIT, b), INIT);
      var w, v := a[lo..hi], b[lo..hi];
      assert a == a[..lo] + w + a[hi..] && b == a[..lo] + v + a[hi..];
      var start := UpdateAll(INIT, a[..lo]);
      UpdateAllIsWord(INIT, a[..lo]);
      UpdateAllIsWord(start, w);
      UpdateAllIsWord(start, v);
      UpdateAllConcat(INIT, a[..lo] + w, a[hi..]);
      UpdateAllConcat(INIT, a[..lo] + v, a[hi..]);
      UpdateAllConcat(INIT, a[..lo], w);
      UpdateAllConcat(INIT, a[..lo], v);
      SuffixInjective(UpdateAll(start, w), UpdateAll(start, v), a[hi..]);
      BackOverWindow(start, start, w, v);
      XorIsZero(start, start);
      DiffBound(w, v);
      assert false;
    }
  }
}
