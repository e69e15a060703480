/**
 The 16-channel remote-control frame: 22 payload bytes carry sixteen 11-bit channels. Shifts, or and
 mask are defined on naturals; the decoder is proved to read the base-2048 digits of the payload's
 little-endian number, so decoding and packing are inverse to each other.
 */
module Sbus {
  import opened Basics
  import opened LittleEndian

  const CHANNELS: nat := 16
  const PAYLOAD: nat := 22
  const FRAME_SIZE: nat := 25
  const FRAME_HEADER: byte := 0x0F

  // ----- machine operations on naturals -----

  function Pow2(r: nat): (p: nat)
    requires r <= 10
    ensures p > 0
  {
    if r == 0 then 1 else if r == 1 then 2 else if r == 2 then 4 else if r == 3 then 8 else if r == 4 then 16
    else if r == 5 then 32 else if r == 6 then 64 else if r == 7 then 128 else if r == 8 then 256
      else if r == 9 then 512 else 1024
  }

  function ShiftRight(x: nat, r: nat): nat
    requires r <= 10
  {
    x / Pow2(r)
  }

  function ShiftLeft(x: nat, r: nat): nat
    requires r <= 10
  {
    x * Pow2(r)
  }

  /** Bitwise or. */
  function Or(x: nat, y: nat): nat {
    if x == 0 && y == 0 then 0
    else (if x % 2 == 1 || y % 2 == 1 then 1 else 0) + 2 * Or(x / 2, y / 2)
  }

  /** `& 0x07FF`. */
  function Low11(x: nat): nat {
    x % 2048
  }

  lemma {:induction false} OrZero(x: nat)
    ensures Or(0, x) == x
  {
    if x > 0 {
      OrZero(x / 2);
    }
  }

  /** Or of numbers without a common bit is their sum. */
  lemma {:induction false} OrDisjoint(x: nat, y: nat, r: nat)
    requires r <= 10 && x < Pow2(r) && y % Pow2(r) == 0
    ensures Or(x, y) == x + y
  {
    if r == 0 {
      OrZero(y);
    } else if x > 0 || y > 0 {
      HalfStaysMultiple(y, r);
      OrDisjoint(x / 2, y / 2, r - 1);
    }
  }

  lemma HalfStaysMultiple(y: nat, r: nat)
    requires 0 < r <= 10 && y % Pow2(r) == 0
    ensures y % 2 == 0 && (y / 2) % Pow2(r - 1) == 0
  {
    var p := Pow2(r - 1);
    assert Pow2(r) == 2 * p;
    hide Pow2;
    var q := y / (2 * p);
    assert y == (2 * p) * q;
    Halves(y, p, q);
    MultipleOf(q, p);
  }

  lemma Halves(y: nat, p: nat, q: nat)
    requires y == (2 * p) * q
    ensures y == 2 * (q * p) && y % 2 == 0 && y / 2 == q * p
  {
    assert (2 * p) * q == 2 * (q * p);
  }

  lemma MultipleOf(x: nat, p: nat)
    requires p > 0
    ensures x * p % p == 0
  {
    Commute(x, p);
    QuotientIs(x * p, p, x, 0);
  }

  lemma Commute(x: int, y: int)
    ensures x * y == y * x
  {
  }

  lemma AtLeastOne(d: nat, x: nat)
    requires x >= 1
    ensures d * x >= d
  {
  }

  lemma Differences(d: int, a: int, b: int)
    ensures d * a - d * b == d * (a - b)
  {
  }

  lemma QuotientIs(n: nat, d: nat, q: nat, r: nat)
    requires r < d && n == d * q + r
    ensures n / d == q && n % d == r
  {
    var k, m := n / d, n % d;
    Differences(d, q, k);
    Differences(d, k, q);
    if q > k {
      AtLeastOne(d, q - k);
    } else if q < k {
      AtLeastOne(d, k - q);
    }
  }

  // ----- channels that span two or three bytes -----

  function Two(lo: byte, hi: byte, r: nat): nat
    requires r <= 5
  {
    Low11(Or(ShiftRight(lo, r), ShiftLeft(hi, 8 - r)))
  }

  function Three(lo: byte, mid: byte, hi: byte, r: nat): nat
    requires 6 <= r <= 7
  {
    Low11(Or(Or(ShiftRight(lo, r), ShiftLeft(mid, 8 - r)), ShiftLeft(hi, 16 - r)))
  }

  lemma ShiftedLeft(x: nat, s: nat)
    requires s <= 10
    ensures ShiftLeft(x, s) % Pow2(s) == 0
  {
    MultipleOf(x, Pow2(s));
  }

  lemma TwoIsSum(lo: byte, hi: byte, r: nat)
    requires r <= 5
    ensures Two(lo, hi, r) == (lo / Pow2(r) + hi * Pow2(8 - r)) % 2048
  {
    ShiftedLeft(hi, 8 - r);
    assert lo / Pow2(r) < Pow2(8 - r);
    OrDisjoint(ShiftRight(lo, r), ShiftLeft(hi, 8 - r), 8 - r);
  }

  lemma ThreeIsSum(lo: byte, mid: byte, hi: byte, r: nat)
    requires 6 <= r <= 7
    ensures Three(lo, mid, hi, r) == (lo / Pow2(r) + mid * Pow2(8 - r) + hi * Pow2(16 - r)) % 2048
  {
    hide Pow2, Or;
    ShiftedLeft(mid, 8 - r);
    ShiftedLeft(hi, 16 - r);
    FirstTwoFit(lo, mid, r);
    OrDisjoint(ShiftRight(lo, r), ShiftLeft(mid, 8 - r), 8 - r);
    OrDisjoint(ShiftRight(lo, r) + ShiftLeft(mid, 8 - r), ShiftLeft(hi, 16 - r), 16 - r);
  }

  lemma FirstTwoFit(lo: byte, mid: byte, r: nat)
    requires 6 <= r <= 7
    ensures ShiftRight(lo, r) < Pow2(8 - r) && ShiftRight(lo, r) + ShiftLeft(mid, 8 - r) < Pow2(16 - r)
  {
    if r == 6 {
      assert lo / 64 < 4;
    } else {
      assert lo / 128 < 2;
    }
  }

  // ----- the payload as one number -----

  /** 2048 to the k-th power. */
  function Base(k: nat): (n: nat)
    ensures n > 0
  {
    if k == 0 then 1 else 2048 * Base(k - 1)
  }

  predicate ValidChannels(channels: seq<nat>) {
    forall k :: 0 <= k < |channels| ==> channels[k] < 2048
  }

  /** The lowest k base-2048 digits. */
  function Digits(n: nat, k: nat): (d: seq<nat>)
    ensures |d| == k && ValidChannels(d)
  {
    if k == 0 then [] else [n % 2048] + Digits(n / 2048, k - 1)
  }

  function Number(channels: seq<nat>): (n: nat)
    requires ValidChannels(channels)
    ensures n < Base(|channels|)
  {
    if channels == [] then 0 else channels[0] + 2048 * Number(channels[1..])
  }

  lemma {:induction false} DigitsOfNumber(channels: seq<nat>)
    requires ValidChannels(channels)
    ensures Digits(Number(channels), |channels|) == channels
  {
    if channels != [] {
      DigitsOfNumber(channels[1..]);
      assert channels == [channels[0]] + channels[1..];
    }
  }

  lemma {:induction false} NumberOfDigits(n: nat, k: nat)
    requires n < Base(k)
    ensures Number(Digits(n, k)) == n
  {
    if k > 0 {
      NumberOfDigits(n / 2048, k - 1);
      assert Digits(n, k)[1..] == Digits(n / 2048, k - 1);
    }
  }

  /** Digit k is bits 11 k to 11 k + 10. */
  lemma {:induction false} DigitAt(n: nat, count: nat, k: nat)
    requires k < count
    ensures Digits(n, count)[k] == n / Base(k) % 2048
  {
    if k > 0 {
      DigitAt(n / 2048, count - 1, k - 1);
      DivTwice(n, 2048, Base(k - 1));
    }
  }

  lemma DivTwice(n: nat, a: nat, b: nat)
    requires a > 0 && b > 0
    ensures a * b > 0 && n / a / b == n / (a * b)
  {
    AtLeastOne(a, b);
    Nested(n, a, b, n / a, n % a, n / a / b, n / a % b);
  }

  lemma Nested(n: nat, a: nat, b: nat, q: nat, r: nat, s: nat, t: nat)
    requires n == a * q + r && r < a && q == b * s + t && t < b
    ensures n / (a * b) == s
  {
    Regroup(a, b, s, t);
    Remainder(a, b, t, r);
    QuotientIs(n, a * b, s, a * t + r);
  }

  lemma Regroup(a: nat, b: nat, s: nat, t: nat)
    ensures a * (b * s + t) == a * b * s + a * t
  {
  }

  lemma Remainder(a: nat, b: nat, t: nat, r: nat)
    requires t < b && r < a
    ensures a * t + r < a * b
  {
    Differences(a, b, t);
    AtLeastOne(a, b - t);
  }

  // ----- one frame -----

  function At(b: Bytes, i: nat): byte {
    if i < |b| then b[i] else 0
  }

  /** The sixteen assignments of the receiver, on the payload bytes. */
  function Decode(b: Bytes): (channels: seq<nat>)
    requires |b| == PAYLOAD
    ensures |channels| == CHANNELS
  {
    [Two(b[0], b[1], 0), Two(b[1], b[2], 3), Three(b[2], b[3], b[4], 6), Two(b[4], b[5], 1),
     Two(b[5], b[6], 4), Three(b[6], b[7], b[8], 7), Two(b[8], b[9], 2), Two(b[9], b[10], 5),
     Two(b[11], b[12], 0), Two(b[12], b[13], 3), Three(b[13], b[14], b[15], 6), Two(b[15], b[16], 1),
     Two(b[16], b[17], 4), Three(b[17], b[18], b[19], 7), Two(b[19], b[20], 2), Two(b[20], b[21], 5)]
  }

  /** The number the payload spells in little endian. */
  lemma {:induction false} TailNumber(b: Bytes, i: nat) returns (rest: nat)
    requires i < |b|
    ensures UnLe(b[i..]) == At(b, i) + 256 * At(b, i + 1) + 65536 * At(b, i + 2) + 16777216 * rest
  {
    assert UnLe(b[i..]) == b[i] + 256 * UnLe(b[i..][1..]) && b[i..][1..] == b[i + 1..];
    if i + 1 < |b| {
      assert UnLe(b[i + 1..]) == b[i + 1] + 256 * UnLe(b[i + 1..][1..]) && b[i + 1..][1..] == b[i + 2..];
      if i + 2 < |b| {
        assert UnLe(b[i + 2..]) == b[i + 2] + 256 * UnLe(b[i + 2..][1..]);
        rest := UnLe(b[i + 2..][1..]);
      } else {
        rest := 0;
      }
    } else {
      rest := 0;
    }
  }

  lemma {:induction false} SplitNumber(b: Bytes, i: nat)
    requires i <= |b|
    ensures UnLe(b) == UnLe(b[..i]) + Span(i) * UnLe(b[i..])
  {
    hide UnLe;
    if i == 0 {
      assert b[..0] == [] && b[0..] == b;
      UnLeNil();
    } else {
      SplitNumber(b[1..], i - 1);
      assert b[..i][1..] == b[1..][..i - 1] && b[1..][i - 1..] == b[i..];
      UnLeCons(b);
      UnLeCons(b[..i]);
      Scale(Span(i - 1), UnLe(b[i..]));
    }
  }

  lemma UnLeNil()
    ensures UnLe([]) == 0
  {
  }

  lemma UnLeCons(b: Bytes)
    requires b != []
    ensures UnLe(b) == b[0] + 256 * UnLe(b[1..])
  {
  }

  lemma Scale(s: nat, x: nat)
    ensures 256 * (s * x) == (256 * s) * x
  {
  }

  /** Bits from 8 i + r on. */
  lemma BitsFrom(b: Bytes, i: nat, r: nat)
    requires i <= |b| && r <= 7
    ensures Span(i) * Pow2(r) > 0
    ensures UnLe(b) / (Span(i) * Pow2(r)) == UnLe(b[i..]) / Pow2(r)
  {
    SplitNumber(b, i);
    QuotientIs(UnLe(b), Span(i), UnLe(b[i..]), UnLe(b[..i]));
    DivTwice(UnLe(b), Span(i), Pow2(r));
  }

  lemma TwoReads(b: Bytes, i: nat, r: nat)
    requires i + 1 < |b| && r <= 5
    ensures Two(b[i], b[i + 1], r) == UnLe(b[i..]) / Pow2(r) % 2048
  {
    TwoIsSum(b[i], b[i + 1], r);
    var rest := TailNumber(b, i);
    TwoArithmetic(b[i], b[i + 1], 256 * rest + At(b, i + 2), r);
  }

  lemma ModSkip(x: nat, k: nat)
    ensures (x + 2048 * k) % 2048 == x % 2048
  {
  }

  /** A number divided by a power of two, read as its low byte's quotient and the rest. */
  lemma Window(n: nat, p: nat, lo: byte, upper: nat, far: nat)
    requires p > 0 && n == p * (lo / p + upper + 2048 * far) + lo % p
    ensures n / p % 2048 == (lo / p + upper) % 2048
  {
    QuotientIs(n, p, lo / p + upper + 2048 * far, lo % p);
    ModSkip(lo / p + upper, far);
  }

  lemma TwoArithmetic(lo: byte, hi: byte, rest: nat, r: nat)
    requires r <= 5
    ensures (lo / Pow2(r) + hi * Pow2(8 - r)) % 2048 == (lo + 256 * hi + 65536 * rest) / Pow2(r) % 2048
  {
    var n := lo + 256 * hi + 65536 * rest;
    if r == 0 {
      Window(n, 1, lo, hi * 256, 32 * rest);
    } else if r == 1 {
      Window(n, 2, lo, hi * 128, 16 * rest);
    } else if r == 2 {
      Window(n, 4, lo, hi * 64, 8 * rest);
    } else if r == 3 {
      Window(n, 8, lo, hi * 32, 4 * rest);
    } else if r == 4 {
      Window(n, 16, lo, hi * 16, 2 * rest);
    } else {
      Window(n, 32, lo, hi * 8, rest);
    }
  }

  lemma ThreeReads(b: Bytes, i: nat, r: nat)
    requires i + 2 < |b| && 6 <= r <= 7
    ensures Three(b[i], b[i + 1], b[i + 2], r) == UnLe(b[i..]) / Pow2(r) % 2048
  {
    hide Three, UnLe;
    ThreeIsSum(b[i], b[i + 1], b[i + 2], r);
    var rest := TailNumber(b, i);
    ThreeArithmetic(b[i], b[i + 1], b[i + 2], rest, r);
  }

  lemma ThreeArithmetic(lo: byte, mid: byte, hi: byte, rest: nat, r: nat)
    requires 6 <= r <= 7
    ensures (lo / Pow2(r) + mid * Pow2(8 - r) + hi * Pow2(16 - r)) % 2048 ==
              (lo + 256 * mid + 65536 * hi + 16777216 * rest) / Pow2(r) % 2048
  {
    var n := lo + 256 * mid + 65536 * hi + 16777216 * rest;
    if r == 6 {
      Window(n, 64, lo, mid * 4 + hi * 1024, 128 * rest);
    } else {
      Window(n, 128, lo, mid * 2 + hi * 512, 64 * rest);
    }
  }

  /** 256 to the 22nd is 2048 to the 16th, step by step. */
  lemma PowersAgree(k: nat)
    requires k <= 2
    ensures Span(11 * k) == Base(8 * k)
  {
    SpanSteps();
    BaseSteps();
    if k == 2 {
      SpanAdds(11, 11);
      BaseAdds(8, 8);
    }
  }

  lemma SpanSteps()
    ensures Span(11) == 0x1_0000_0000_0000_0000_0000_00
  {
    Widths();
    assert Span(9) == 0x1_0000_0000_0000_0000_00;
    assert Span(10) == 0x1_0000_0000_0000_0000_0000;
  }

  lemma BaseSteps()
    ensures Base(8) == 0x1_0000_0000_0000_0000_0000_00
  {
    assert Base(1) == 0x800;
    assert Base(2) == 0x40_0000;
    assert Base(3) == 0x2_0000_0000;
    assert Base(4) == 0x1000_0000_0000;
    assert Base(5) == 0x80_0000_0000_0000;
    assert Base(6) == 0x4_0000_0000_0000_0000;
    assert Base(7) == 0x2000_0000_0000_0000_0000;
  }

  lemma SpanUp(k: nat)
    ensures Span(0) == 1 && Span(k + 1) == 256 * Span(k)
  {
  }

  lemma {:induction false} SpanAdds(i: nat, j: nat)
    ensures Span(i + j) == Span(i) * Span(j)
  {
    hide Span;
    SpanUp(0);
    if i > 0 {
      SpanUp(i - 1);
      SpanUp(i - 1 + j);
      SpanAdds(i - 1, j);
      Reassociate(256, Span(i - 1), Span(j));
    }
  }

  lemma BaseUp(k: nat)
    ensures Base(0) == 1 && Base(k + 1) == 2048 * Base(k)
  {
  }

  lemma {:induction false} BaseAdds(i: nat, j: nat)
    ensures Base(i + j) == Base(i) * Base(j)
  {
    hide Base;
    BaseUp(0);
    if i > 0 {
      BaseUp(i - 1);
      BaseUp(i - 1 + j);
      BaseAdds(i - 1, j);
      Reassociate(2048, Base(i - 1), Base(j));
    }
  }

  /** Channel k starts at bit 11 k, that is at bit 11 k % 8 of byte 11 k / 8. */
  lemma ChannelStart(k: nat, i: nat, r: nat)
    requires k < CHANNELS && r <= 7 && 11 * k == 8 * i + r
    ensures Base(k) == Span(i) * Pow2(r)
  {
    hide Base, Span, Pow2;
    if k >= 8 {
      ChannelStart(k - 8, i - 11, r);
      PowersAgree(1);
      BaseAdds(8, k - 8);
      SpanAdds(11, i - 11);
      Reassociate(Span(11), Span(i - 11), Pow2(r));
    } else {
      SmallStart(k, i, r);
    }
  }

  lemma Reassociate(a: nat, b: nat, c: nat)
    ensures a * (b * c) == a * b * c
  {
  }

  lemma SmallStart(k: nat, i: nat, r: nat)
    requires k < 8 && r <= 7 && 11 * k == 8 * i + r
    ensures Base(k) == Span(i) * Pow2(r)
  {
    assert Base(1) == 0x800;
    assert Base(2) == 0x40_0000;
    assert Base(3) == 0x2_0000_0000;
    assert Base(4) == 0x1000_0000_0000;
    assert Base(5) == 0x80_0000_0000_0000;
    assert Base(6) == 0x4_0000_0000_0000_0000;
    assert Base(7) == 0x2000_0000_0000_0000_0000;
    Widths();
    assert Span(1) == 256 && Span(9) == 0x1_0000_0000_0000_0000_00;
    assert Span(5) == 0x100_0000_0000 && Span(6) == 0x1_0000_0000_0000;
  }

  lemma TwoChannel(b: Bytes, k: nat, i: nat, r: nat)
    requires |b| == PAYLOAD && k < CHANNELS && r <= 5 && 11 * k == 8 * i + r && i + 1 < PAYLOAD
    ensures Two(b[i], b[i + 1], r) == UnLe(b) / Base(k) % 2048
  {
    hide Two, Base, Span, Pow2, UnLe;
    TwoReads(b, i, r);
    BitsFrom(b, i, r);
    ChannelStart(k, i, r);
  }

  lemma ThreeChannel(b: Bytes, k: nat, i: nat, r: nat)
    requires |b| == PAYLOAD && k < CHANNELS && 6 <= r <= 7 && 11 * k == 8 * i + r && i + 2 < PAYLOAD
    ensures Three(b[i], b[i + 1], b[i + 2], r) == UnLe(b) / Base(k) % 2048
  {
    hide Three, Base, Span, Pow2, UnLe;
    ThreeReads(b, i, r);
    BitsFrom(b, i, r);
    ChannelStart(k, i, r);
  }

  /** Channel k is bits 11 k to 11 k + 10 of the payload read as one little-endian number. */
  lemma ChannelIsBits(b: Bytes, k: nat)
    requires |b| == PAYLOAD && k < CHANNELS
    ensures Decode(b)[k] == UnLe(b) / Base(k) % 2048
  {
    hide Two, Three, Base, UnLe, Pow2, Span;
    match k
    case 0 => TwoChannel(b, 0, 0, 0);
    case 1 => TwoChannel(b, 1, 1, 3);
    case 2 => ThreeChannel(b, 2, 2, 6);
    case 3 => TwoChannel(b, 3, 4, 1);
    case 4 => TwoChannel(b, 4, 5, 4);
    case 5 => ThreeChannel(b, 5, 6, 7);
    case 6 => TwoChannel(b, 6, 8, 2);
    case 7 => TwoChannel(b, 7, 9, 5);
    case 8 => TwoChannel(b, 8, 11, 0);
    case 9 => TwoChannel(b, 9, 12, 3);
    case 10 => ThreeChannel(b, 10, 13, 6);
    case 11 => TwoChannel(b, 11, 15, 1);
    case 12 => TwoChannel(b, 12, 16, 4);
    case 13 => ThreeChannel(b, 13, 17, 7);
    case 14 => TwoChannel(b, 14, 19, 2);
    case 15 => TwoChannel(b, 15, 20, 5);
  }

  /** Decoding reads the sixteen base-2048 digits of the payload. */
  lemma DecodeIsDigits(b: Bytes)
    requires |b| == PAYLOAD
    ensures Decode(b) == Digits(UnLe(b), CHANNELS) && ValidChannels(Decode(b))
  {
    hide Decode, Digits, Base, UnLe;
    forall k | 0 <= k < CHANNELS ensures Decode(b)[k] == Digits(UnLe(b), CHANNELS)[k] {
      ChannelIsBits(b, k);
      DigitAt(UnLe(b), CHANNELS, k);
    }
  }

  /** The payload that carries sixteen channels. */
  function Pack(channels: seq<nat>): (b: Bytes)
    requires |channels| == CHANNELS && ValidChannels(channels)
    ensures |b| == PAYLOAD
  {
    PowersAgree(2);
    Le(Number(channels), PAYLOAD)
  }

  /** Any sixteen values below 2048 survive packing and decoding. */
  lemma DecodeOfPack(channels: seq<nat>)
    requires |channels| == CHANNELS && ValidChannels(channels)
    ensures Decode(Pack(channels)) == channels
  {
    hide Decode, Digits, Base, UnLe, Le, Span, Number;
    PowersAgree(2);
    DecodeIsDigits(Pack(channels));
    UnLeOfLe(Number(channels), PAYLOAD);
    DigitsOfNumber(channels);
  }

  /** Packing the decoded channels restores every payload. */
  lemma PackOfDecode(b: Bytes)
    requires |b| == PAYLOAD
    ensures ValidChannels(Decode(b)) && Pack(Decode(b)) == b
  {
    hide Decode, Digits, Base, UnLe, Le, Span, Number;
    PowersAgree(2);
    DecodeIsDigits(b);
    NumberOfDigits(UnLe(b), CHANNELS);
    LeOfUnLe(b);
  }
}
