/**
 * Decimal text of integers: Python's `str(n)` as used by the f-strings
 * of the report, and the fixed-width zero-padded fields written by
 * `strftime('%Y-%m-%d')`.
 */
module Decimal {
  import opened Wrappers
  import opened LexOrder

  function Pow10(w: nat): (p: nat)
    ensures p >= 1
  {
    if w == 0 then 1 else 10 * Pow10(w - 1)
  }

  predicate IsDigit(c: char)
  {
    '0' <= c <= '9'
  }

  predicate AllDigits(s: string)
  {
    forall i | 0 <= i < |s| :: IsDigit(s[i])
  }

  function DigitChar(d: nat): (c: char)
    requires d < 10
    ensures IsDigit(c)
  {
    (48 + d) as char
  }

  function DigitValue(c: char): (d: nat)
    requires IsDigit(c)
    ensures d < 10 && DigitChar(d) == c
  {
    c as int - 48
  }

  /** `str(n)` for a non-negative integer: its digits, without leading zeros. */
  function NatToString(n: nat): (s: string)
    ensures |s| >= 1 && AllDigits(s)
    ensures s[0] == '0' ==> s == "0" && n == 0
    decreases n
  {
    if n < 10 then [DigitChar(n)] else NatToString(n / 10) + [DigitChar(n % 10)]
  }

  /** `str(n)` for any integer: a minus sign before the digits of `-n` when negative. */
  function IntToString(n: int): (s: string)
  {
    if n < 0 then "-" + NatToString(-n) else NatToString(n)
  }

  /** The value of a string of decimal digits (the empty string reads as 0). */
  function ParseNat(s: string): (n: nat)
    requires AllDigits(s)
  {
    if s == [] then 0 else 10 * ParseNat(s[..|s| - 1]) + DigitValue(s[|s| - 1])
  }

  /** Reads back what IntToString writes: an optional minus sign and at least one digit. */
  function ParseInt(s: string): (r: Option<int>)
  {
    if |s| >= 2 && s[0] == '-' && AllDigits(s[1..]) then Some(0 - ParseNat(s[1..]))
    else if |s| >= 1 && AllDigits(s) then Some(ParseNat(s))
    else None
  }

  lemma {:induction false} NatToStringRoundTrip(n: nat)
    ensures ParseNat(NatToString(n)) == n
    decreases n
  {
    var s := NatToString(n);
    if n >= 10 {
      NatToStringRoundTrip(n / 10);
      assert s[..|s| - 1] == NatToString(n / 10);
    }
  }

  /** The rendered number can be read back exactly: no information is lost. */
  lemma IntToStringRoundTrip(n: int)
    ensures ParseInt(IntToString(n)) == Some(n)
  {
    var s := IntToString(n);
    if n < 0 {
      var t := NatToString(-n);
      assert s == "-" + t && s[1..] == t;
      NatToStringRoundTrip(-n);
      assert ParseNat(s[1..]) == -n;
    } else {
      NatToStringRoundTrip(n);
      assert IsDigit(s[0]);
    }
  }

  /** Two integers render alike only when they are equal. */
  lemma IntToStringInjective(n: int, m: int)
    requires IntToString(n) == IntToString(m)
    ensures n == m
  {
    IntToStringRoundTrip(n);
    IntToStringRoundTrip(m);
  }

  /** `n` written with exactly `w` digits, leading zeros added (`%0wd`). */
  function Pad(n: nat, w: nat): (s: string)
    requires n < Pow10(w)
    ensures |s| == w && AllDigits(s)
  {
    if w == 0 then "" else Pad(n / 10, w - 1) + [DigitChar(n % 10)]
  }

  /**
   * Fixed-width zero-padded numbers compare as text exactly as they
   * compare as numbers, and render alike only when equal.
   */
  lemma {:induction false} PadOrder(n: nat, m: nat, w: nat)
    requires n < Pow10(w) && m < Pow10(w)
    ensures Pad(n, w) == Pad(m, w) <==> n == m
    ensures LexLe(Pad(n, w), Pad(m, w)) <==> n <= m
  {
    if w > 0 {
      PadOrder(n / 10, m / 10, w - 1);
      var hn, hm := Pad(n / 10, w - 1), Pad(m / 10, w - 1);
      var cn, cm := DigitChar(n % 10), DigitChar(m % 10);
      LexLeEqualLengthPrefix(hn, hm, [cn], [cm]);
      assert Pad(n, w) == Pad(m, w) <==> hn == hm && cn == cm by {
        if Pad(n, w) == Pad(m, w) {
          assert Pad(n, w)[..w - 1] == hn && Pad(m, w)[..w - 1] == hm;
          assert Pad(n, w)[w - 1] == cn && Pad(m, w)[w - 1] == cm;
        }
      }
      assert LexLe([cn], [cm]) <==> n % 10 <= m % 10 by {
        assert [cn][1..] == [];
      }
      assert cn == cm <==> n % 10 == m % 10;
      assert n == 10 * (n / 10) + n % 10;
      assert m == 10 * (m / 10) + m % 10;
    }
  }
}
