/** Decimal numerals of integers, as Python's `str` writes them inside an
    f-string: an optional `-`, then digits without leading zeros. `ParseInt`
    is the independent reading of such a numeral, and the two round-trip
    lemmas show that the writer and the reader are inverse to each other. */
module Decimal {
  import opened Wrappers

  function DigitChar(d: nat): (c: char)
    requires d < 10
  {
    ('0' as int + d) as char
  }

  function DigitValue(c: char): nat
    requires '0' <= c <= '9'
  {
    c as int - '0' as int
  }

  predicate IsDigits(s: string) {
    forall i :: 0 <= i < |s| ==> '0' <= s[i] <= '9'
  }

  /** A numeral without sign: at least one digit, no leading zero unless it is "0". */
  predicate IsCanonical(s: string) {
    |s| > 0 && IsDigits(s) && (s[0] == '0' ==> |s| == 1)
  }

  /** The value of a string of decimal digits, most significant first. */
  function ValueOf(s: string): nat
    requires IsDigits(s)
    decreases |s|
  {
    if s == [] then 0
    else
      ValueOf(s[..|s| - 1]) * 10 + DigitValue(s[|s| - 1])
  }

  /** The numeral Python prints for a natural number. */
  function NatToDecimal(n: nat): (s: string)
    ensures IsCanonical(s)
    ensures s[0] == '0' <==> n == 0
    decreases n
  {
    if n < 10 then [DigitChar(n)]
    else NatToDecimal(n / 10) + [DigitChar(n % 10)]
  }

  /** The numeral Python prints for any integer. */
  function IntToDecimal(n: int): (s: string)
    ensures |s| > 0
  {
    if n < 0 then "-" + NatToDecimal(-n) else NatToDecimal(n)
  }

  /** Reads a numeral in the form IntToDecimal writes; anything else is None. */
  function ParseInt(s: string): Option<int> {
    if |s| > 0 && s[0] == '-' then
      if IsCanonical(s[1..]) && s[1..] != "0" then Some(0 - ValueOf(s[1..]) as int) else None
    else if IsCanonical(s) then Some(ValueOf(s))
    else None
  }

  lemma {:induction false} NatRoundTrip(n: nat)
    ensures ValueOf(NatToDecimal(n)) == n
    decreases n
  {
    if n >= 10 {
      NatRoundTrip(n / 10);
      var s := NatToDecimal(n);
      assert s[..|s| - 1] == NatToDecimal(n / 10);
    }
  }

  /** A numeral with a non-zero leading digit and two or more digits is at least 10. */
  lemma {:induction false} LeadingDigitBound(s: string)
    requires IsDigits(s) && |s| > 0 && s[0] != '0'
    ensures ValueOf(s) >= 1
    ensures |s| >= 2 ==> ValueOf(s) >= 10
    decreases |s|
  {
    if |s| >= 2 {
      var p := s[..|s| - 1];
      assert IsDigits(p) by {
        forall i | 0 <= i < |p| ensures '0' <= p[i] <= '9' {
          assert p[i] == s[i];
        }
      }
      assert p[0] == s[0];
      LeadingDigitBound(p);
    }
  }

  lemma {:induction false} CanonicalRoundTrip(s: string)
    requires IsCanonical(s)
    ensures NatToDecimal(ValueOf(s)) == s
    decreases |s|
  {
    if |s| == 1 {
      assert s == [s[0]];
      assert ValueOf(s) == DigitValue(s[0]) by {
        assert s[..0] == [];
      }
    } else {
      var p := s[..|s| - 1];
      assert IsDigits(p) by {
        forall i | 0 <= i < |p| ensures '0' <= p[i] <= '9' {
          assert p[i] == s[i];
        }
      }
      assert p[0] == s[0];
      LeadingDigitBound(s);
      CanonicalRoundTrip(p);
      var n := ValueOf(s);
      assert n / 10 == ValueOf(p) && n % 10 == DigitValue(s[|s| - 1]);
      assert s == p + [s[|s| - 1]];
    }
  }

  /** Printing then reading gives back the integer. */
  lemma IntRoundTrip(n: int)
    ensures ParseInt(IntToDecimal(n)) == Some(n)
  {
    var s := IntToDecimal(n);
    if n < 0 {
      var digits := NatToDecimal(-n);
      assert s[0] == '-' && s[1..] == digits;
      assert digits != "0" by {
        assert digits[0] != '0';
      }
      NatRoundTrip(-n);
    } else {
      assert s[0] != '-' && IsCanonical(s);
      NatRoundTrip(n);
    }
  }

  /** Reading then printing gives back the numeral: every numeral has one reading. */
  lemma ParseRoundTrip(s: string, n: int)
    requires ParseInt(s) == Some(n)
    ensures IntToDecimal(n) == s
  {
    if |s| > 0 && s[0] == '-' {
      var digits := s[1..];
      assert IsCanonical(digits) && digits != "0" && n + ValueOf(digits) == 0;
      assert |digits| == 1 ==> digits == [digits[0]];
      assert digits[0] != '0';
      LeadingDigitBound(digits);
      CanonicalRoundTrip(digits);
      assert IntToDecimal(n) == "-" + digits;
      assert s == "-" + digits;
    } else {
      assert IsCanonical(s) && n == ValueOf(s);
      CanonicalRoundTrip(s);
    }
  }
}
