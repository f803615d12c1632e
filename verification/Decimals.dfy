/** Decimal text of integers, plain and padded with zeros to a width. */
module Decimals {
  function Digit(n: int): char
    requires 0 <= n < 10
  {
    ('0' as int + n) as char
  }

  predicate IsDigit(c: char) {
    '0' <= c <= '9'
  }

  predicate AllDigits(s: string) {
    forall i :: 0 <= i < |s| ==> IsDigit(s[i])
  }

  function Natural(n: nat): (r: string)
    ensures |r| > 0 && AllDigits(r)
  {
    if n < 10 then [Digit(n)] else Natural(n / 10) + [Digit(n % 10)]
  }

  function Zeros(n: nat): (r: string)
    ensures |r| == n && AllDigits(r)
  {
    if n == 0 then "" else "0" + Zeros(n - 1)
  }

  /** `{n:0width}`: the digits of `n`, with leading zeros up to the width. */
  function Padded(n: nat, width: nat): (r: string)
    ensures |r| >= width && AllDigits(r)
  {
    var d := Natural(n);
    if |d| < width then Zeros(width - |d|) + d else d
  }

  /** `{n:0width}` of a signed integer: the sign takes one column of the width. */
  function PaddedInteger(n: int, width: nat): string {
    if n < 0 then "-" + Padded(-n, if width == 0 then 0 else width - 1) else Padded(n, width)
  }

  function Integer(n: int): string {
    if n < 0 then "-" + Natural(-n) else Natural(n)
  }

  // ----- Reading it back -------------------------------------------------------

  function Value(s: string): int {
    if s == "" then 0 else 10 * Value(s[..|s| - 1]) + (s[|s| - 1] as int - '0' as int)
  }

  function IntegerValue(s: string): int {
    if s != "" && s[0] == '-' then -Value(s[1..]) else Value(s)
  }

  lemma {:induction false} NaturalRoundTrip(n: nat)
    ensures Value(Natural(n)) == n
  {
    if n >= 10 {
      NaturalRoundTrip(n / 10);
      assert Natural(n)[..|Natural(n)| - 1] == Natural(n / 10);
    } else {
      assert Natural(n)[..0] == "";
    }
  }

  lemma {:induction false} LeadingZeros(k: nat, s: string)
    ensures Value(Zeros(k) + s) == Value(s)
    decreases |s|, k
  {
    var t := Zeros(k) + s;
    if s != "" {
      assert t[..|t| - 1] == Zeros(k) + s[..|s| - 1];
      LeadingZeros(k, s[..|s| - 1]);
    } else if k > 0 {
      ZerosSuffix(k);
      assert t == Zeros(k - 1) + "0";
      assert t[..|t| - 1] == Zeros(k - 1) + "";
      LeadingZeros(k - 1, "");
    }
  }

  lemma {:induction false} ZerosSuffix(k: nat)
    requires k > 0
    ensures Zeros(k) == Zeros(k - 1) + "0"
  {
    if k > 1 {
      ZerosSuffix(k - 1);
      assert Zeros(k) == "0" + Zeros(k - 2) + "0";
    }
  }

  lemma PaddedRoundTrip(n: nat, width: nat)
    ensures Value(Padded(n, width)) == n
  {
    NaturalRoundTrip(n);
    if |Natural(n)| < width {
      LeadingZeros(width - |Natural(n)|, Natural(n));
    }
  }

  lemma {:induction false} NaturalWidth(n: nat, width: nat, limit: nat)
    requires width > 0 && n < limit && limit == PowerOfTen(width)
    ensures |Natural(n)| <= width
    decreases width
  {
    if n >= 10 {
      NaturalWidth(n / 10, width - 1, PowerOfTen(width - 1));
    }
  }

  function PowerOfTen(k: nat): nat {
    if k == 0 then 1 else 10 * PowerOfTen(k - 1)
  }

  /** A number below ten to the width takes exactly the width. */
  lemma PaddedWidth(n: nat, width: nat)
    requires width > 0 && n < PowerOfTen(width)
    ensures |Padded(n, width)| == width
  {
    NaturalWidth(n, width, PowerOfTen(width));
  }

  lemma PaddedIntegerRoundTrip(n: int, width: nat)
    ensures IntegerValue(PaddedInteger(n, width)) == n
  {
    var s := PaddedInteger(n, width);
    if n < 0 {
      var w := if width == 0 then 0 else width - 1;
      assert s[1..] == Padded(-n, w);
      PaddedRoundTrip(-n, w);
    } else {
      PaddedRoundTrip(n, width);
      PaddedNonempty(n, width);
      assert IsDigit(s[0]);
    }
  }

  lemma PaddedNonempty(n: nat, width: nat)
    ensures |Padded(n, width)| > 0
  {
  }

  lemma IntegerRoundTrip(n: int)
    ensures IntegerValue(Integer(n)) == n
  {
    var s := Integer(n);
    if n < 0 {
      assert s[1..] == Natural(-n);
      NaturalRoundTrip(-n);
    } else {
      NaturalRoundTrip(n);
      assert IsDigit(s[0]);
    }
  }
}
