/** What a CRC-32 is: the complemented remainder of the message, its first 32 bits complemented,
    modulo the polynomial, by long division on coefficients. */
module CrcValues {
  import opened Bits
  import opened Crc32
  import opened CrcBursts

  // ----- polynomials over GF(2), the highest coefficient first -----

  /** x^32 + x^26 + x^23 + x^22 + x^16 + x^12 + x^11 + x^10 + x^8 + x^7 + x^5 + x^4 + x^2 + x + 1. */
  predicate InPolynomial(exponent: nat) {
    exponent in {32, 26, 23, 22, 16, 12, 11, 10, 8, 7, 5, 4, 2, 1, 0}
  }

  /** Subtract the divisor, aligned with the highest coefficient. */
  function Subtract(p: seq<bool>): (q: seq<bool>)
    requires |p| > 32
    ensures |q| == |p|
  {
    seq(|p|, i requires 0 <= i < |p| => p[i] != (i <= 32 && InPolynomial(32 - i)))
  }

  /** Long division: what is left of a polynomial of at least 32 coefficients. */
  function Remainder(p: seq<bool>): (r: seq<bool>)
    requires |p| >= 32
    ensures |r| == 32
    decreases |p|
  {
    if |p| == 32 then p
    else if p[0] then Remainder(Subtract(p)[1..])
    else Remainder(p[1..])
  }

  function Complement(s: seq<bool>): (c: seq<bool>)
    ensures |c| == |s|
  {
    seq(|s|, i requires 0 <= i < |s| => !s[i])
  }

  function Zeros32(): (z: seq<bool>)
    ensures |z| == 32
  {
    seq(32, _ => false)
  }

  /** The message times x^32, its first 32 coefficients complemented. */
  function Dividend(message: seq<bool>): (p: seq<bool>)
    ensures |p| == |message| + 32
  {
    var p := message + Zeros32();
    Complement(p[..32]) + p[32..]
  }

  // ----- the register divides -----

  function XorSeq(a: seq<bool>, b: seq<bool>): (c: seq<bool>)
    requires |a| == |b|
    ensures |c| == |a|
  {
    seq(|a|, i requires 0 <= i < |a| => a[i] != b[i])
  }

  /** A register of 32 coefficients added to the front of a polynomial. */
  function OnFront(r: seq<bool>, p: seq<bool>): (q: seq<bool>)
    requires |r| == 32 <= |p|
    ensures |q| == |p|
  {
    XorSeq(p[..32], r) + p[32..]
  }

  /** The coefficients below the highest one. */
  function LowerPart(): (g: seq<bool>)
    ensures |g| == 32
  {
    seq(32, i requires 0 <= i < 32 => InPolynomial(31 - i))
  }

  /** One division step on the register alone. */
  function Divide(r: seq<bool>, b: bool): (after: seq<bool>)
    requires |r| == 32
    ensures |after| == 32
  {
    var shifted := r[1..] + [false];
    if r[0] != b then XorSeq(shifted, LowerPart()) else shifted
  }

  function DivideAll(r: seq<bool>, message: seq<bool>): (after: seq<bool>)
    requires |r| == 32
    ensures |after| == 32
    decreases |message|
  {
    if |message| == 0 then r else DivideAll(Divide(r, message[0]), message[1..])
  }

  /** One step of the long division, register and message kept apart. */
  lemma DivisionStep(r: seq<bool>, message: seq<bool>)
    requires |r| == 32 && |message| > 0
    ensures Remainder(OnFront(r, message + Zeros32()))
            == Remainder(OnFront(Divide(r, message[0]), message[1..] + Zeros32()))
  {
    hide InPolynomial, OnFront, Divide, Zeros32, Subtract;
    var p := OnFront(r, message + Zeros32());
    var next := OnFront(Divide(r, message[0]), message[1..] + Zeros32());
    forall i | 0 <= i < |message| + 31
      ensures (if p[0] then Subtract(p)[1..] else p[1..])[i] == next[i]
    {
      DivisionStepAt(r, message, i);
    }
    assert (if p[0] then Subtract(p)[1..] else p[1..]) == next;
  }

  lemma DivisionStepAt(r: seq<bool>, message: seq<bool>, i: nat)
    requires |r| == 32 && |message| > 0 && i < |message| + 31
    ensures var p := OnFront(r, message + Zeros32());
            var next := OnFront(Divide(r, message[0]), message[1..] + Zeros32());
            |p| == |message| + 32 && |next| == |message| + 31 && (if p[0] then Subtract(p)[i + 1] else p[i + 1]) == next[i]
  {
    hide InPolynomial;
    HighestIsOne();
    assert (message[1..] + Zeros32())[i] == (message + Zeros32())[i + 1];
  }

  lemma HighestIsOne()
    ensures InPolynomial(32)
  {
  }

  /** Shifting a message through the register is dividing it. */
  lemma {:induction false} RegisterDivides(r: seq<bool>, message: seq<bool>)
    requires |r| == 32
    ensures Remainder(OnFront(r, message + Zeros32())) == DivideAll(r, message)
    decreases |message|
  {
    hide Remainder, OnFront, Divide;
    if |message| == 0 {
      NothingLeft(r, message);
    } else {
      DivisionStep(r, message);
      RegisterDivides(Divide(r, message[0]), message[1..]);
    }
  }

  lemma NothingLeft(r: seq<bool>, message: seq<bool>)
    requires |r| == 32 && message == []
    ensures Remainder(OnFront(r, message + Zeros32())) == r
  {
    assert OnFront(r, message + Zeros32()) == r;
  }

  // ----- the number is the register -----

  lemma {:induction false} LowFirstOfXor(x: nat, y: nat, n: nat)
    ensures LowFirst(Xor(x, y), n) == XorSeq(LowFirst(x, n), LowFirst(y, n))
  {
    if n > 0 {
      XorStep(x, y);
      LowFirstOfXor(x / 2, y / 2, n - 1);
    }
  }

  lemma {:induction false} LowFirstGrows(x: nat, n: nat)
    requires x < Pow2(n)
    ensures LowFirst(x, n + 1) == LowFirst(x, n) + [false]
  {
    if n > 0 {
      LowFirstGrows(x / 2, n - 1);
    }
  }

  lemma LowFirstStep(x: nat, n: nat)
    ensures LowFirst(x, n + 1) == [x % 2 == 1] + LowFirst(x / 2, n)
  {
  }

  lemma FourMore(x: nat, y: nat, b0: bool, b1: bool, b2: bool, b3: bool, n: nat)
    requires x == 16 * y + (if b0 then 1 else 0) + (if b1 then 2 else 0) + (if b2 then 4 else 0) + (if b3 then 8 else 0)
    ensures LowFirst(x, n + 4) == [b0, b1, b2, b3] + LowFirst(y, n)
  {
    hide LowFirst;
    LowFirstStep(x, n + 3);
    LowFirstStep(x / 2, n + 2);
    LowFirstStep(x / 2 / 2, n + 1);
    LowFirstStep(x / 2 / 2 / 2, n);
  }

  /** The constant of the program is the polynomial. */
  lemma PolyIsPolynomial()
    ensures LowFirst(POLY, 32) == LowerPart()
  {
    hide LowFirst;
    FourMore(0xEDB88320, 0xEDB8832, false, false, false, false, 28);
    FourMore(0xEDB8832, 0xEDB883, false, true, false, false, 24);
    FourMore(0xEDB883, 0xEDB88, true, true, false, false, 20);
    FourMore(0xEDB88, 0xEDB8, false, false, false, true, 16);
    FourMore(0xEDB8, 0xEDB, false, false, false, true, 12);
    FourMore(0xEDB, 0xED, true, true, false, true, 8);
    FourMore(0xED, 0xE, true, false, true, true, 4);
    FourMore(0xE, 0x0, false, true, true, true, 0);
    assert |LowFirst(0, 0)| == 0;
  }

  lemma HalfShifts(crc: nat)
    requires Word(crc)
    ensures LowFirst(crc / 2, 32) == LowFirst(crc, 32)[1..] + [false]
    ensures LowFirst(crc, 32)[0] == (crc % 2 == 1)
  {
    Pow2Of31();
    LowFirstGrows(crc / 2, 31);
    hide Pow2;
    assert LowFirst(crc, 32) == [crc % 2 == 1] + LowFirst(crc / 2, 31);
  }

  /** One step of the bit-serial form is one division step. */
  lemma SerialDivides(crc: nat, b: bool)
    requires Word(crc)
    ensures LowFirst(SerialStep(crc, b), 32) == Divide(LowFirst(crc, 32), b)
  {
    hide LowFirst, Xor, LowerPart;
    HalfShifts(crc);
    LowFirstOfXor(crc / 2, POLY, 32);
    PolyIsPolynomial();
  }

  lemma {:induction false} SerialDividesAll(crc: nat, message: seq<bool>)
    requires Word(crc)
    ensures LowFirst(Serial(crc, message), 32) == DivideAll(LowFirst(crc, 32), message)
    decreases |message|
  {
    hide LowFirst, SerialStep, Divide;
    if |message| > 0 {
      SerialDivides(crc, message[0]);
      StepIsWord(crc, message[0]);
      SerialDividesAll(SerialStep(crc, message[0]), message[1..]);
    }
  }

  // ----- the value -----

  lemma {:induction false} OnesAreOnes(n: nat)
    ensures LowFirst(Pow2(n) - 1, n) == seq(n, _ => true)
  {
    hide LowFirst, Pow2;
    if n > 0 {
      OnesStep(n);
      OnesAreOnes(n - 1);
      LowFirstStep(Pow2(n) - 1, n - 1);
      assert seq(n, _ => true) == [true] + seq(n - 1, _ => true);
    } else {
      assert LowFirst(Pow2(n) - 1, n) == [];
    }
  }

  lemma OnesStep(n: nat)
    requires n > 0
    ensures (Pow2(n) - 1) % 2 == 1 && (Pow2(n) - 1) / 2 == Pow2(n - 1) - 1
  {
    OddHalf(Pow2(n - 1) - 1);
  }

  lemma OddHalf(h: nat)
    ensures (2 * h + 1) % 2 == 1 && (2 * h + 1) / 2 == h
  {
  }

  lemma InitIsOnes()
    ensures LowFirst(INIT, 32) == seq(32, _ => true)
  {
    Pow2Of32();
    OnesAreOnes(32);
  }

  /** Starting the register at all ones complements the first 32 coefficients. */
  lemma InitComplements(message: seq<bool>)
    ensures OnFront(LowFirst(INIT, 32), message + Zeros32()) == Dividend(message)
  {
    InitIsOnes();
  }

  lemma FinalComplement(x: nat)
    ensures LowFirst(Xor(x, INIT), 32) == Complement(LowFirst(x, 32))
  {
    hide LowFirst, Xor;
    InitIsOnes();
    LowFirstOfXor(x, INIT, 32);
  }

  /** The CRC of any message: read from its lowest bit up, it is the complement of the remainder of
      the message, every byte from its lowest bit up and the first 32 bits complemented. */
  lemma CrcIsRemainder(data: seq<byte>)
    ensures Crc(data) < 0x1_0000_0000
    ensures LowFirst(Crc(data), 32) == Complement(Remainder(Dividend(MessageBits(data))))
  {
    hide *;
    var message := MessageBits(data);
    TableDrivenIsBitSerial(data);
    InitWord();
    SerialDividesAll(INIT, message);
    RegisterDivides(LowFirst(INIT, 32), message);
    InitComplements(message);
    FinalComplement(UpdateAll(INIT, data));
    CrcOfRegister(data);
  }

  lemma InitWord()
    ensures Word(INIT) && |LowFirst(INIT, 32)| == 32
  {
  }

  lemma CrcOfRegister(data: seq<byte>)
    ensures Crc(data) == Xor(UpdateAll(INIT, data), INIT) && Crc(data) < 0x1_0000_0000
  {
    hide UpdateAll, Xor;
    UpdateAllIsWord(INIT, data);
    XorOfWords(UpdateAll(INIT, data), INIT);
  }

  // ----- in the bits of the bytes -----

  /** The message as a polynomial: every byte from its lowest bit up. */
  function Coefficients(data: seq<byte>): (p: seq<bool>)
    ensures |p| == 8 * |data|
  {
    seq(8 * |data|, i requires 0 <= i < 8 * |data| => data[i / 8] / Pow2(i % 8) % 2 == 1)
  }

  lemma {:induction false} LowFirstAt(x: nat, n: nat, j: nat)
    requires j < n
    ensures LowFirst(x, n)[j] == BitAt(x, j)
  {
    if j > 0 {
      LowFirstAt(x / 2, n - 1, j - 1);
    }
  }

  lemma {:induction false} MessageBitsAre(data: seq<byte>)
    ensures MessageBits(data) == Coefficients(data)
  {
    hide Pow2, LowFirst, BitAt;
    if |data| > 0 {
      var n := |data| - 1;
      MessageBitsAre(data[..n]);
      forall i | 0 <= i < 8 * |data| ensures MessageBits(data)[i] == Coefficients(data)[i] {
        if i >= 8 * n {
          LowFirstAt(data[n], 8, i - 8 * n);
          BitAtIsDigit(data[n], i - 8 * n);
        }
      }
    }
  }

  /** The CRC of any message, bit by bit, from the message's bits and the polynomial alone. */
  lemma CrcBit(data: seq<byte>, j: nat)
    requires j < 32
    ensures Crc(data) < 0x1_0000_0000
    ensures Crc(data) / Pow2(j) % 2 == 1 <==> !Remainder(Dividend(Coefficients(data)))[j]
  {
    hide *;
    CrcIsRemainder(data);
    MessageBitsAre(data);
    LowFirstAt(Crc(data), 32, j);
    BitAtIsDigit(Crc(data), j);
    ComplementAt(Remainder(Dividend(Coefficients(data))), j);
  }

  lemma ComplementAt(s: seq<bool>, j: nat)
    requires j < |s|
    ensures |Complement(s)| == |s| && Complement(s)[j] == !s[j]
  {
  }
}
