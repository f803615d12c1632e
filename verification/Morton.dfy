/**
  Morton codes: the word-parallel bit tricks that interleave two coordinates, and the
  plain arithmetic they compute.
 */
module Morton {
  const MAX_COORD: bv64 := 0x03FF_FFFF
  const MAX_SCORE: bv64 := 0xF_FFFF_FFFF_FFFF

  // ----- The bit tricks ---------------------------------------------------------------------

  /** Bit `i` of the low 26 bits goes to bit `2 i`. */
  function SpreadLow26(v: bv64): bv64 {
    var x0 := v & 0x03FF_FFFF;
    var x1 := (x0 | (x0 << 16)) & 0x0000_FFFF_0000_FFFF;
    var x2 := (x1 | (x1 << 8)) & 0x00FF_00FF_00FF_00FF;
    var x3 := (x2 | (x2 << 4)) & 0x0F0F_0F0F_0F0F_0F0F;
    var x4 := (x3 | (x3 << 2)) & 0x3333_3333_3333_3333;
    (x4 | (x4 << 1)) & 0x5555_5555_5555_5555
  }

  /** The bits at even positions, gathered. */
  function SquashEven(v: bv64): bv64 {
    var x0 := v & 0x5555_5555_5555_5555;
    var x1 := (x0 | (x0 >> 1)) & 0x3333_3333_3333_3333;
    var x2 := (x1 | (x1 >> 2)) & 0x0F0F_0F0F_0F0F_0F0F;
    var x3 := (x2 | (x2 >> 4)) & 0x00FF_00FF_00FF_00FF;
    var x4 := (x3 | (x3 >> 8)) & 0x0000_FFFF_0000_FFFF;
    var x5 := (x4 | (x4 >> 16)) & 0x0000_0000_FFFF_FFFF;
    x5 & 0x03FF_FFFF
  }

  /** Latitude in the even positions, longitude in the odd ones. */
  function Interleave(lat: bv64, lon: bv64): bv64 {
    SpreadLow26(lat) | (SpreadLow26(lon) << 1)
  }

  // ----- The arithmetic -----------------------------------------------------------------------

  /** The number a word stands for, bit by bit. */
  function Value(x: bv64): nat
    decreases x
  {
    if x == 0 then 0 else (if x & 1 == 1 then 1 else 0) + 2 * Value(x >> 1)
  }

  /** Two numbers with their binary digits taking turns. */
  function Weave(a: nat, b: nat): nat
    decreases a + b
  {
    if a == 0 && b == 0 then 0 else a % 2 + 2 * (b % 2) + 4 * Weave(a / 2, b / 2)
  }

  /** The digits at even positions. */
  function Evens(x: nat): nat {
    if x == 0 then 0 else x % 2 + 2 * Evens(x / 4)
  }

  function Odds(x: nat): nat {
    Evens(x / 2)
  }

  lemma TwoDigits(lo: nat, hi: nat, rest: nat)
    requires lo < 2 && hi < 2
    ensures var w := lo + 2 * hi + 4 * rest;
            w / 4 == rest && w % 2 == lo && w / 2 == hi + 2 * rest && w / 2 % 2 == hi && w / 2 / 4 == rest / 2
  {
  }

  lemma OneDigit(lo: nat, rest: nat)
    requires lo < 2
    ensures (lo + 2 * rest) % 2 == lo && (lo + 2 * rest) / 2 == rest
  {
  }

  lemma DigitsOf(x: nat)
    ensures x == x % 2 + 2 * (x / 2 % 2) + 4 * (x / 4) && x / 2 / 2 == x / 4 && x / 2 / 4 == x / 4 / 2
  {
  }

  lemma EvensOf(x: nat)
    ensures Evens(x) == x % 2 + 2 * Evens(x / 4)
  {
  }

  lemma WeaveOf(a: nat, b: nat)
    ensures Weave(a, b) == a % 2 + 2 * (b % 2) + 4 * Weave(a / 2, b / 2)
  {
  }

  /** Weaving is a bijection between pairs of numbers and numbers. */
  lemma {:induction false} WeaveSplits(a: nat, b: nat)
    ensures Evens(Weave(a, b)) == a
    ensures Odds(Weave(a, b)) == b
    decreases a + b
  {
    hide Weave, Evens;
    if a == 0 && b == 0 {
      WeaveZero();
    } else {
      WeaveSplits(a / 2, b / 2);
      var rest, w := Weave(a / 2, b / 2), Weave(a, b);
      WeaveOf(a, b);
      TwoDigits(a % 2, b % 2, rest);
      EvensOf(w);
      EvensOf(w / 2);
    }
  }

  lemma WeaveZero()
    ensures Weave(0, 0) == 0 && Evens(0) == 0
  {
  }

  lemma {:induction false} SplitWeaves(x: nat)
    ensures Weave(Evens(x), Odds(x)) == x
    decreases x
  {
    hide Weave, Evens;
    if x == 0 {
      WeaveZero();
    } else {
      SplitWeaves(x / 4);
      DigitsOf(x);
      EvensOf(x);
      EvensOf(x / 2);
      OneDigit(x % 2, Evens(x / 4));
      OneDigit(x / 2 % 2, Odds(x / 4));
      WeaveOf(Evens(x), Odds(x));
    }
  }

  // ----- The tricks compute the arithmetic -------------------------------------------------------

  lemma SpreadStep(v: bv64)
    requires v <= MAX_COORD
    ensures SpreadLow26(v) == (v & 1) | (SpreadLow26(v >> 1) << 2)
  {
  }

  lemma SpreadZero()
    ensures SpreadLow26(0) == 0
  {
  }

  lemma SpreadSmall(v: bv64)
    ensures SpreadLow26(v) <= 0x5_5555_5555_5555
  {
  }

  lemma SquashStep(x: bv64)
    requires x <= MAX_SCORE
    ensures SquashEven(x) == (x & 1) | (SquashEven(x >> 2) << 1)
  {
  }

  lemma SquashSmall(x: bv64)
    ensures SquashEven(x) <= MAX_COORD
  {
  }

  lemma Regroup(a: bv64, b: bv64, x: bv64, y: bv64)
    ensures (a | (x << 2)) | ((b | (y << 2)) << 1) == (a | (b << 1)) | ((x | (y << 1)) << 2)
  {
  }

  lemma InterleaveStep(a: bv64, b: bv64)
    requires a <= MAX_COORD && b <= MAX_COORD
    ensures Interleave(a, b) == ((a & 1) | ((b & 1) << 1)) | (Interleave(a >> 1, b >> 1) << 2)
  {
    hide SpreadLow26;
    SpreadStep(a);
    SpreadStep(b);
    Regroup(a & 1, b & 1, SpreadLow26(a >> 1), SpreadLow26(b >> 1));
  }

  lemma WovenSmall(x: bv64, y: bv64)
    requires x <= 0x5_5555_5555_5555 && y <= 0x5_5555_5555_5555
    ensures x | (y << 1) <= MAX_SCORE
  {
  }

  lemma InterleaveSmall(a: bv64, b: bv64)
    ensures Interleave(a, b) <= MAX_SCORE
  {
    hide SpreadLow26;
    SpreadSmall(a);
    SpreadSmall(b);
    WovenSmall(SpreadLow26(a), SpreadLow26(b));
  }

  function Bit(x: bv64): nat {
    if x & 1 == 1 then 1 else 0
  }

  lemma ValueStep(x: bv64)
    ensures Value(x) == Bit(x) + 2 * Value(x >> 1)
    ensures Value(x) % 2 == Bit(x) && Value(x) / 2 == Value(x >> 1)
  {
    assert x == 0 ==> x >> 1 == 0;
  }

  /** Appending two binary digits below a word. */
  lemma ValueAppend(lo: bv64, hi: bv64, y: bv64)
    requires lo <= 1 && hi <= 1 && y <= MAX_SCORE
    ensures Value((lo | (hi << 1)) | (y << 2)) == Bit(lo) + 2 * Bit(hi) + 4 * Value(y)
  {
    hide Value;
    var x := (lo | (hi << 1)) | (y << 2);
    AppendBits(lo, hi, y);
    ValueStep(x);
    ValueStep(x >> 1);
  }

  lemma AppendBits(lo: bv64, hi: bv64, y: bv64)
    requires lo <= 1 && hi <= 1 && y <= MAX_SCORE
    ensures var x := (lo | (hi << 1)) | (y << 2);
            x & 1 == lo & 1 && (x >> 1) & 1 == hi & 1 && (x >> 1) >> 1 == y
  {
  }

  lemma AppendBit(lo: bv64, y: bv64)
    requires lo <= 1 && y <= MAX_COORD
    ensures var x := lo | (y << 1);
            x & 1 == lo & 1 && x >> 1 == y
  {
  }

  lemma LowBit(x: bv64)
    ensures x & 1 <= 1 && Bit(x & 1) == Bit(x)
  {
  }

  lemma ShiftedSmaller(a: bv64, b: bv64)
    requires a <= MAX_COORD && b <= MAX_COORD
    ensures a >> 1 <= MAX_COORD && b >> 1 <= MAX_COORD
    ensures a != 0 ==> a >> 1 < a
    ensures a == 0 ==> a >> 1 == 0
  {
  }

  /** The spread-and-or of the code is the weave of the two numbers. */
  lemma {:induction false} InterleaveWeaves(a: bv64, b: bv64)
    requires a <= MAX_COORD && b <= MAX_COORD
    ensures Value(Interleave(a, b)) == Weave(Value(a), Value(b))
    decreases a, b
  {
    hide SpreadLow26, Value, Weave;
    if a == 0 && b == 0 {
      NothingWoven();
    } else {
      ShiftedSmaller(a, b);
      ShiftedSmaller(b, a);
      InterleaveWeaves(a >> 1, b >> 1);
      InterleaveStep(a, b);
      InterleaveSmall(a >> 1, b >> 1);
      LowBit(a);
      LowBit(b);
      ValueAppend(a & 1, b & 1, Interleave(a >> 1, b >> 1));
      ValueStep(a);
      ValueStep(b);
      WeaveOf(Value(a), Value(b));
    }
  }

  lemma NothingWoven()
    ensures Value(Interleave(0, 0)) == Weave(Value(0), Value(0))
  {
    SpreadZero();
  }

  lemma QuarterSmaller(x: bv64)
    requires x <= MAX_SCORE
    ensures x >> 2 <= MAX_SCORE && (x >> 1) >> 1 == x >> 2
    ensures x != 0 ==> x >> 2 < x
  {
  }

  lemma NothingSquashed()
    ensures SquashEven(0) == 0
  {
  }

  lemma SquashValue(x: bv64)
    requires x <= MAX_SCORE
    ensures Value(SquashEven(x)) == Bit(x) + 2 * Value(SquashEven(x >> 2))
  {
    hide SquashEven, Value;
    SquashStep(x);
    SquashSmall(x >> 2);
    LowBit(x);
    AppendBit(x & 1, SquashEven(x >> 2));
    ValueStep(SquashEven(x));
  }

  lemma QuarterValue(x: bv64)
    ensures Value(x) / 4 == Value((x >> 1) >> 1) && Value(x) % 2 == Bit(x)
  {
    hide Value;
    ValueStep(x);
    ValueStep(x >> 1);
    DigitsOf(Value(x));
  }

  /** The mask-and-gather of the code is the even digits of the number. */
  lemma {:induction false} SquashGathers(x: bv64)
    requires x <= MAX_SCORE
    ensures Value(SquashEven(x)) == Evens(Value(x))
    decreases x
  {
    hide SquashEven, Value, Evens, Bit;
    if x == 0 {
      NothingSquashed();
      ZeroIsZero();
    } else {
      QuarterSmaller(x);
      SquashGathers(x >> 2);
      SquashValue(x);
      QuarterValue(x);
      EvensOf(Value(x));
    }
  }

  lemma ZeroIsZero()
    ensures Value(0) == 0 && Evens(0) == 0
  {
  }

  /** Encoding and decoding are inverse: coordinates survive, and so does every 52-bit score. */
  lemma InterleaveRoundTrip(lat: bv64, lon: bv64)
    requires lat <= MAX_COORD && lon <= MAX_COORD
    ensures SquashEven(Interleave(lat, lon)) == lat
    ensures SquashEven(Interleave(lat, lon) >> 1) == lon
  {
    hide SpreadLow26, SquashEven;
    InterleaveSmall(lat, lon);
    InterleaveWeaves(lat, lon);
    WeaveSplits(Value(lat), Value(lon));
    var s := Interleave(lat, lon);
    SquashGathers(s);
    ValueStep(s);
    HalfSmall(s);
    SquashGathers(s >> 1);
    ValueInjective(SquashEven(s), lat);
    ValueInjective(SquashEven(s >> 1), lon);
  }

  lemma HalfSmall(s: bv64)
    requires s <= MAX_SCORE
    ensures s >> 1 <= MAX_SCORE
  {
  }

  lemma ScoreRoundTrip(score: bv64)
    requires score <= MAX_SCORE
    ensures Interleave(SquashEven(score), SquashEven(score >> 1)) == score
  {
    hide SpreadLow26, SquashEven;
    var lat, lon := SquashEven(score), SquashEven(score >> 1);
    HalfSmall(score);
    SquashSmall(score);
    SquashSmall(score >> 1);
    SquashGathers(score);
    SquashGathers(score >> 1);
    ValueStep(score);
    SplitWeaves(Value(score));
    InterleaveWeaves(lat, lon);
    ValueInjective(Interleave(lat, lon), score);
  }

  function Half(x: bv64): bv64 {
    x >> 1
  }

  lemma ValueHalves(x: bv64, y: bv64)
    requires Value(x) == Value(y)
    ensures Value(Half(x)) == Value(Half(y)) && Bit(x) == Bit(y)
  {
    hide Value, Bit;
    ValueStep(x);
    ValueStep(y);
  }

  lemma {:induction false} ValueInjective(x: bv64, y: bv64)
    requires Value(x) == Value(y)
    ensures x == y
    decreases Value(x)
  {
    hide Value, Bit, Half;
    ZeroValue(x);
    ZeroValue(y);
    if Value(x) != 0 {
      HalfValueLess(x);
      ValueHalves(x, y);
      ValueInjective(Half(x), Half(y));
      SameHalves(x, y);
    }
  }

  lemma HalfValueLess(x: bv64)
    requires Value(x) != 0
    ensures Value(Half(x)) < Value(x)
  {
    hide Value;
    ValueStep(x);
  }

  lemma {:induction false} ZeroValue(y: bv64)
    ensures Value(y) == 0 <==> y == 0
    decreases y
  {
    if y != 0 {
      HalfLess(y);
      ZeroValue(y >> 1);
      HalfOrBit(y);
    }
  }

  lemma HalfLess(x: bv64)
    requires x != 0
    ensures x >> 1 < x
  {
  }

  lemma HalfOrBit(y: bv64)
    requires y != 0
    ensures y & 1 == 1 || y >> 1 != 0
  {
  }

  lemma SameHalves(x: bv64, y: bv64)
    requires Half(x) == Half(y) && Bit(x) == Bit(y)
    ensures x == y
  {
  }
}
