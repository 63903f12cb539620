/** Self-delimiting numeric values (RFC 6256, section 2), src/ltp_cla/sdnv.cpp: base-128 digits, most
    significant first, the high bit set on every byte but the last. */
module Sdnv {
  import opened Bits

  const MAX_BYTES := 10
  const TWO_64 := 0x1_0000_0000_0000_0000

  /** A parse either fails or gives a value and the bytes that follow it. */
  datatype Parse<+T> = Fail | Ok(value: T, rest: seq<byte>) {
    predicate IsFailure() { Fail? }

    function PropagateFailure<U>(): Parse<U>
      requires Fail?
    {
      Fail
    }

    function Extract(): (T, seq<byte>)
      requires Ok?
    {
      (value, rest)
    }
  }

  /** The digits of `w` that precede the last one, continuation bit set. */
  function LeadingBytes(w: nat): seq<byte> {
    if w == 0 then [] else LeadingBytes(w / 128) + [128 + w % 128]
  }

  function Encode(value: nat): (bytes: seq<byte>)
    ensures |bytes| > 0
  {
    LeadingBytes(value / 128) + [value % 128]
  }

  /** The decoding loop: `value` is a 64-bit accumulator, so it wraps. */
  function DecodeLoop(bytes: seq<byte>, value: nat, consumed: nat): Parse<nat>
    decreases |bytes|
  {
    if |bytes| == 0 || consumed + 1 > MAX_BYTES then Fail
    else
      var v := (value * 128 + bytes[0] % 128) % TWO_64;
      if bytes[0] < 128 then Ok(v, bytes[1..]) else DecodeLoop(bytes[1..], v, consumed + 1)
  }

  function Decode(bytes: seq<byte>): Parse<nat> {
    DecodeLoop(bytes, 0, 0)
  }

  function Pow128(k: nat): (p: nat)
    ensures p > 0
  {
    if k == 0 then 1 else 128 * Pow128(k - 1)
  }

  lemma Pow128Of9()
    ensures Pow128(9) == 0x8000_0000_0000_0000 && Pow128(10) >= TWO_64
  {
    assert Pow128(2) == 128 * Pow128(1);
    assert Pow128(3) == 128 * Pow128(2);
    assert Pow128(4) == 128 * Pow128(3);
    assert Pow128(5) == 128 * Pow128(4);
    assert Pow128(6) == 128 * Pow128(5);
    assert Pow128(7) == 128 * Pow128(6);
    assert Pow128(8) == 128 * Pow128(7);
    assert Pow128(9) == 128 * Pow128(8);
  }

  lemma {:induction false} LeadingLength(w: nat, k: nat)
    ensures |LeadingBytes(w)| <= k <==> w < Pow128(k)
  {
    if w > 0 && k > 0 {
      LeadingLength(w / 128, k - 1);
    }
  }

  /** The encoding is as short as base 128 allows, so a 64-bit value takes at most ten bytes. */
  lemma EncodedLength(value: nat, k: nat)
    requires k > 0
    ensures |Encode(value)| <= k <==> value < Pow128(k)
    ensures value < TWO_64 ==> |Encode(value)| <= MAX_BYTES
  {
    LeadingLength(value / 128, k - 1);
    LeadingLength(value / 128, 9);
    Pow128Of9();
  }

  /** One more byte, as long as the accumulator has room for it. */
  lemma DecodeOne(b: byte, rest: seq<byte>, value: nat, consumed: nat)
    requires value * 128 + b % 128 < TWO_64 && consumed < MAX_BYTES
    ensures DecodeLoop([b] + rest, value, consumed)
            == if b < 128 then Ok(value * 128 + b % 128, rest)
               else DecodeLoop(rest, value * 128 + b % 128, consumed + 1)
  {
    assert ([b] + rest)[1..] == rest;
  }

  lemma {:induction false} DecodeLeading(w: nat, rest: seq<byte>)
    requires w < Pow128(9)
    ensures DecodeLoop(LeadingBytes(w) + rest, 0, 0) == DecodeLoop(rest, w, |LeadingBytes(w)|)
  {
    hide DecodeLoop, Pow128;
    if w == 0 {
      assert LeadingBytes(w) + rest == rest;
    } else {
      var last: byte := 128 + w % 128;
      Pow128Of9();
      DecodeLeading(w / 128, [last] + rest);
      assert LeadingBytes(w) + rest == LeadingBytes(w / 128) + ([last] + rest);
      LeadingLength(w, 9);
      DecodeOne(last, rest, w / 128, |LeadingBytes(w / 128)|);
    }
  }

  /** Round trip: whatever follows, decoding an encoded 64-bit value gives it back and consumes
      exactly its bytes. */
  lemma RoundTrip(value: nat, rest: seq<byte>)
    requires value < TWO_64
    ensures Decode(Encode(value) + rest) == Ok(value, rest)
  {
    hide DecodeLoop, Pow128, LeadingBytes;
    var w := value / 128;
    var last: byte := value % 128;
    Pow128Of9();
    DecodeLeading(w, [last] + rest);
    assert Encode(value) + rest == LeadingBytes(w) + ([last] + rest);
    LeadingLength(w, 9);
    DecodeOne(last, rest, w, |LeadingBytes(w)|);
  }

  lemma {:induction false} DecodedBound(bytes: seq<byte>, value: nat, consumed: nat)
    requires value < Pow128(consumed) && DecodeLoop(bytes, value, consumed).Ok?
    ensures var r := DecodeLoop(bytes, value, consumed);
            |r.rest| < |bytes| && r.value < Pow128(consumed + |bytes| - |r.rest|)
    decreases |bytes|
  {
    var v := (value * 128 + bytes[0] % 128) % TWO_64;
    assert v <= value * 128 + bytes[0] % 128 < Pow128(consumed + 1);
    if bytes[0] >= 128 {
      DecodedBound(bytes[1..], v, consumed + 1);
    }
  }

  /** Minimality: no byte string that decodes to a value is shorter than its encoding. */
  lemma EncodingIsMinimal(bytes: seq<byte>, value: nat, rest: seq<byte>)
    requires Decode(bytes) == Ok(value, rest)
    ensures |Encode(value)| <= |bytes| - |rest|
  {
    DecodedBound(bytes, 0, 0);
    EncodedLength(value, |bytes| - |rest|);
  }

  // ----- the code -----

  /** Digits from the least significant up into a scratch buffer, then reversed. */
  method EncodeMethod(value: nat) returns (bytes: array<byte>, length: nat)
    requires value < TWO_64
    ensures bytes.Length == MAX_BYTES && length <= MAX_BYTES
    ensures bytes[..length] == Encode(value)
  {
    bytes := new byte[MAX_BYTES](i => 0);
    if value == 0 {
      bytes[0] := 0;
      length := 1;
      assert bytes[..1] == [0];
      return;
    }
    EncodedLength(value, MAX_BYTES);
    hide Encode, LeadingBytes, Reversed;
    var tmp := new byte[MAX_BYTES](i => 0);
    var v := value;
    length := 0;
    while v > 0
      invariant v >= 0 && length <= |Encode(value)|
      invariant if length == 0 then v == value else Encode(value) == LeadingBytes(v) + Reversed(tmp[..length])
    {
      var b := v % 128;
      if length > 0 {
        b := b + 128;
      }
      EncodeStep(value, v, tmp[..length], b);
      ghost var before := tmp[..length];
      tmp[length] := b;
      length := length + 1;
      assert tmp[..length] == before + [b];
      v := v / 128;
    }
    NoLeadingBytes(tmp[..length]);
    ReverseInto(tmp, length, bytes);
  }

  /** One digit more of the encoding, `b`, with `v` the digits still to come. */
  lemma EncodeStep(value: nat, v: nat, digits: seq<byte>, b: byte)
    requires v > 0 && b == v % 128 + (if |digits| == 0 then 0 else 128)
    requires if |digits| == 0 then v == value else Encode(value) == LeadingBytes(v) + Reversed(digits)
    ensures |digits| < |Encode(value)|
    ensures Encode(value) == LeadingBytes(v / 128) + Reversed(digits + [b])
  {
    hide *;
    ReversedSnoc(digits, b);
    if |digits| == 0 {
      FirstDigit(value);
      NoLeadingBytes(digits);
      assert [b] + [] == [b];
    } else {
      LeadingSnoc(v);
      Reassociate(LeadingBytes(v / 128), b, Reversed(digits));
    }
  }

  lemma FirstDigit(value: nat)
    ensures Encode(value) == LeadingBytes(value / 128) + [value % 128]
  {
  }

  lemma Reassociate(low: seq<byte>, b: byte, high: seq<byte>)
    ensures (low + [b]) + high == low + ([b] + high)
  {
  }

  lemma ReversedSnoc(digits: seq<byte>, b: byte)
    ensures Reversed(digits + [b]) == [b] + Reversed(digits)
  {
    assert (digits + [b])[..|digits|] == digits;
  }

  lemma LeadingSnoc(v: nat)
    requires v > 0
    ensures LeadingBytes(v) == LeadingBytes(v / 128) + [128 + v % 128]
  {
  }

  lemma NoLeadingBytes(digits: seq<byte>)
    ensures LeadingBytes(0) + Reversed(digits) == Reversed(digits)
    ensures |digits| == 0 ==> Reversed(digits) == []
  {
  }

  function Reversed(s: seq<byte>): (r: seq<byte>)
    ensures |r| == |s|
  {
    if |s| == 0 then [] else [s[|s| - 1]] + Reversed(s[..|s| - 1])
  }

  lemma {:induction false} ReversedAt(s: seq<byte>, i: nat)
    requires i < |s|
    ensures Reversed(s)[i] == s[|s| - 1 - i]
  {
    if i > 0 {
      ReversedAt(s[..|s| - 1], i - 1);
    }
  }

  method ReverseInto(tmp: array<byte>, length: nat, bytes: array<byte>)
    requires length <= tmp.Length && length <= bytes.Length && tmp != bytes
    modifies bytes
    ensures bytes[..length] == Reversed(tmp[..length])
  {
    ghost var r := Reversed(tmp[..length]);
    for i := 0 to length
      invariant bytes[..i] == r[..i]
    {
      ReversedAt(tmp[..length], i);
      bytes[i] := tmp[length - 1 - i];
      assert bytes[..i + 1] == bytes[..i] + [bytes[i]];
    }
  }

  method EncodeInto(value: nat, out: seq<byte>) returns (longer: seq<byte>)
    requires value < TWO_64
    ensures longer == out + Encode(value)
  {
    var bytes, length := EncodeMethod(value);
    longer := out + bytes[..length];
  }

  /** Decode at an offset. On success the offset moves past the value. */
  method DecodeAt(data: seq<byte>, offset: nat) returns (ok: bool, value: nat, next: nat)
    ensures ok <==> offset <= |data| && Decode(data[offset..]).Ok?
    ensures ok ==> offset < next <= |data| && Decode(data[offset..]) == Ok(value, data[next..])
  {
    ok, value, next := false, 0, offset;
    if offset >= |data| { return; }
    var bytesConsumed := 0;
    while next < |data|
      invariant offset <= next <= |data| && bytesConsumed == next - offset
      invariant Decode(data[offset..]) == DecodeLoop(data[next..], value, bytesConsumed)
    {
      var b := data[next];
      ghost var tail := data[next..];
      assert tail[0] == b && tail[1..] == data[next + 1..];
      next := next + 1;
      bytesConsumed := bytesConsumed + 1;
      if bytesConsumed > MAX_BYTES { return; }
      value := (value * 128 + b % 128) % TWO_64;
      if b < 128 {
        ok := true;
        return;
      }
    }
  }

  lemma NextPower(w: nat, k: nat)
    ensures w / 128 / Pow128(k) == w / Pow128(k + 1)
  {
    DivideTwice(w, 128, Pow128(k));
    assert Product(Pow128(k), 128) == Pow128(k + 1);
  }

  lemma {:induction false} LeadingDigit(w: nat, i: nat)
    requires i < |LeadingBytes(w)|
    ensures LeadingBytes(w)[i] == 128 + w / Pow128(|LeadingBytes(w)| - 1 - i) % 128
  {
    hide Pow128;
    var m := |LeadingBytes(w)|;
    if i < m - 1 {
      LeadingDigit(w / 128, i);
      NextPower(w, m - 2 - i);
    } else {
      ByOne(w);
    }
  }

  lemma ByOne(w: nat)
    ensures w / Pow128(0) == w
  {
  }

  /** Every byte of an encoding: seven bits of the value, the highest ones first, and the high bit set
      exactly when another byte follows. */
  lemma EncodedDigit(value: nat, i: nat)
    requires i < |Encode(value)|
    ensures var n := |Encode(value)|;
            Encode(value)[i] == value / Pow128(n - 1 - i) % 128 + if i < n - 1 then 128 else 0
  {
    hide Pow128, LeadingBytes;
    var n := |Encode(value)|;
    if i < n - 1 {
      LeadingDigit(value / 128, i);
      NextPower(value, n - 2 - i);
    } else {
      ByOne(value);
    }
  }

  // ----- what decoding makes of any bytes -----

  /** Seven bits of every byte, the first ones highest. */
  function Digits(bytes: seq<byte>): nat {
    if |bytes| == 0 then 0 else 128 * Digits(bytes[..|bytes| - 1]) + bytes[|bytes| - 1] % 128
  }

  lemma WrapOnce(d: nat, b: nat)
    ensures (d % TWO_64 * 128 + b) % TWO_64 == (128 * d + b) % TWO_64
  {
    var q, r := d / TWO_64, d % TWO_64;
    assert 128 * d + b == TWO_64 * (128 * q) + (r * 128 + b);
  }

  lemma {:induction false} DecodeFrom(bytes: seq<byte>, from: nat, n: nat)
    requires from <= n < |bytes| && from <= 10 && (forall i :: 0 <= i < n ==> bytes[i] >= 128) && bytes[n] < 128
    ensures DecodeLoop(bytes[from..], Digits(bytes[..from]) % TWO_64, from)
            == if n < 10 then Ok(Digits(bytes[..n + 1]) % TWO_64, bytes[n + 1..]) else Fail
    decreases n - from
  {
    hide Digits;
    if from < 10 {
      DigitsSnoc(bytes, from);
      WrapOnce(Digits(bytes[..from]), bytes[from] % 128);
      assert bytes[from..][1..] == bytes[from + 1..];
      if from < n { DecodeFrom(bytes, from + 1, n); }
    }
  }

  lemma DigitsSnoc(bytes: seq<byte>, k: nat)
    requires k < |bytes|
    ensures Digits(bytes[..k + 1]) == 128 * Digits(bytes[..k]) + bytes[k] % 128
  {
    assert bytes[..k + 1][..k] == bytes[..k];
  }

  /** Decoding any bytes: up to the first byte without the high bit, if it is among the first ten, and
      modulo 2^64. */
  lemma DecodeIs(bytes: seq<byte>, n: nat)
    requires n < |bytes| && (forall i :: 0 <= i < n ==> bytes[i] >= 128) && bytes[n] < 128
    ensures Decode(bytes) == if n < 10 then Ok(Digits(bytes[..n + 1]) % 0x1_0000_0000_0000_0000, bytes[n + 1..]) else Fail
  {
    DecodeFrom(bytes, 0, n);
    assert bytes[0..] == bytes;
  }

  /** Decoding fails if and only if none of the first ten bytes ends the value. */
  lemma DecodeFailsIff(bytes: seq<byte>)
    ensures Decode(bytes).Fail? <==> forall i :: 0 <= i < |bytes| && i < 10 ==> bytes[i] >= 128
  {
    hide Decode, Digits;
    if forall i :: 0 <= i < |bytes| ==> bytes[i] >= 128 {
      NoEnd(bytes, 0, 0);
    } else {
      var n := FirstEnd(bytes);
      DecodeIs(bytes, n);
    }
  }

  lemma {:induction false} NoEnd(bytes: seq<byte>, value: nat, consumed: nat)
    requires forall i :: 0 <= i < |bytes| ==> bytes[i] >= 128
    ensures DecodeLoop(bytes, value, consumed).Fail?
    ensures consumed == 0 && value == 0 ==> Decode(bytes).Fail?
    decreases |bytes|
  {
    if |bytes| > 0 && consumed < MAX_BYTES {
      NoEnd(bytes[1..], (value * 128 + bytes[0] % 128) % TWO_64, consumed + 1);
    }
  }

  lemma FirstEnd(bytes: seq<byte>) returns (n: nat)
    requires exists i :: 0 <= i < |bytes| && bytes[i] < 128
    ensures n < |bytes| && bytes[n] < 128 && forall i :: 0 <= i < n ==> bytes[i] >= 128
  {
    n := 0;
    while bytes[n] >= 128
      invariant n < |bytes| && forall i :: 0 <= i < n ==> bytes[i] >= 128
      invariant exists i :: n <= i < |bytes| && bytes[i] < 128
      decreases |bytes| - n
    {
      n := n + 1;
    }
  }
}
