/**
 * `Long.valueOf(String)` / `Long.parseLong(String, 10)`: the decimal parser behind the
 * interval settings. `ParseLong` says which strings denote which 64-bit values;
 * `ParseLongChecked` follows the JDK's digit loop, which accumulates the value negatively
 * and rejects overflow before it happens, and is proved to agree with `ParseLong`.
 */
module JavaLong {
  import opened Wrappers

  const MaxLong: int := 0x7fff_ffff_ffff_ffff
  const MinLong: int := -0x8000_0000_0000_0000

  /** The values of a Java `long`. */
  type Int64 = n: int | MinLong <= n <= MaxLong

  predicate IsDigit(c: char)
  {
    '0' <= c <= '9'
  }

  function DigitValue(c: char): (d: nat)
    requires IsDigit(c)
    ensures d < 10
  {
    c as int - '0' as int
  }

  function DigitChar(d: nat): (c: char)
    requires d < 10
    ensures IsDigit(c) && DigitValue(c) == d
  {
    ('0' as int + d) as char
  }

  predicate AllDigits(s: string)
  {
    forall k | 0 <= k < |s| :: IsDigit(s[k])
  }

  /** The value of a run of decimal digits, most significant first. */
  function DigitsValue(s: string): (r: nat)
    requires AllDigits(s)
  {
    if s == [] then 0 else DigitsValue(s[..|s| - 1]) * 10 + DigitValue(s[|s| - 1])
  }

  predicate IsSign(c: char)
  {
    c == '-' || c == '+'
  }

  /** Where the digits of `s` start: after a leading sign, if there is one. */
  function DigitsStart(s: string): (r: nat)
  {
    if |s| > 0 && IsSign(s[0]) then 1 else 0
  }

  /** A decimal numeral: an optional `+` or `-` followed by at least one ASCII digit. */
  predicate IsNumeral(s: string)
  {
    DigitsStart(s) < |s| && AllDigits(s[DigitsStart(s)..])
  }

  function NumeralValue(s: string): (r: int)
    requires IsNumeral(s)
  {
    if s[0] == '-' then -(DigitsValue(s[1..]) as int) else DigitsValue(s[DigitsStart(s)..])
  }

  /** What `Long.parseLong` returns: the numeral's value when it fits in a `long`, and
      None where the JDK throws `NumberFormatException`. */
  function ParseLong(s: string): (r: Option<Int64>)
  {
    if IsNumeral(s) && MinLong <= NumeralValue(s) <= MaxLong then Some(NumeralValue(s)) else None
  }

  /** A longer run of digits is worth at least as much as any of its prefixes. */
  lemma {:induction false} DigitsValuePrefix(t: string, j: nat)
    requires AllDigits(t) && j <= |t|
    ensures AllDigits(t[..j]) && DigitsValue(t[..j]) <= DigitsValue(t)
    decreases |t|
  {
    if j == |t| {
      assert t[..j] == t;
    } else {
      var init := t[..|t| - 1];
      DigitsValuePrefix(init, j);
      assert init[..j] == t[..j];
    }
  }

  /** Appending one digit multiplies by ten and adds it. */
  lemma DigitsValueSnoc(s: string, i: nat, j: nat)
    requires i <= j < |s| && AllDigits(s[i..j]) && IsDigit(s[j])
    ensures AllDigits(s[i..j + 1]) && DigitsValue(s[i..j + 1]) == DigitsValue(s[i..j]) * 10 + DigitValue(s[j])
  {
    assert forall k | i <= k < j :: s[i..j][k - i] == s[k];
    assert forall k | i <= k <= j :: s[i..j + 1][k - i] == s[k];
    assert s[i..j + 1][..j - i] == s[i..j];
  }

  /** `Long.parseLong(s, 10)` as the JDK runs it: a lone sign, an unexpected character
      and a value beyond the `long` range are each rejected. */
  method ParseLongChecked(s: string) returns (r: Option<Int64>)
    ensures r == ParseLong(s)
  {
    if |s| == 0 {
      return None;
    }
    var negative := false;
    var limit: Int64 := -MaxLong;
    var i := 0;
    if s[0] < '0' {
      // a possible leading sign
      if s[0] == '-' {
        negative := true;
        limit := MinLong;
      } else if s[0] != '+' {
        assert !AllDigits(s[DigitsStart(s)..]) by { assert s[0..][0] == s[0]; }
        return None;
      }
      if |s| == 1 {
        return None;
      }
      i := 1;
    }
    assert i == DigitsStart(s);
    // Java's `limit / radix` truncates toward zero: divide the magnitude, then negate
    var multmin: Int64 := -((-(limit as int)) / 10);
    var result: Int64 := 0;
    ghost var bound: nat := -(limit as int);
    assert negative ==> bound == -MinLong;
    assert !negative ==> bound == MaxLong;
    while i < |s|
      invariant DigitsStart(s) <= i <= |s|
      invariant AllDigits(s[DigitsStart(s)..i])
      invariant result == -(DigitsValue(s[DigitsStart(s)..i]) as int)
      invariant limit <= result <= 0
    {
      var start := DigitsStart(s);
      if !IsDigit(s[i]) {
        assert s[start..][i - start] == s[i];
        return None;
      }
      DigitsValueSnoc(s, start, i);
      var digit := DigitValue(s[i]);
      if result < multmin {
        Overflows(s, i + 1, bound);
        return None;
      }
      result := result * 10;
      if result < limit + digit {
        Overflows(s, i + 1, bound);
        return None;
      }
      result := result - digit;
      i := i + 1;
    }
    assert s[DigitsStart(s)..i] == s[DigitsStart(s)..];
    r := Some(if negative then result else -result);
  }

  /** Once the digits read so far are worth more than `bound`, the whole string cannot
      be a `long` numeral. */
  lemma Overflows(s: string, j: nat, bound: nat)
    requires DigitsStart(s) < j <= |s| && AllDigits(s[DigitsStart(s)..j])
    requires DigitsValue(s[DigitsStart(s)..j]) > bound
    requires bound == (if s[0] == '-' then -MinLong else MaxLong)
    ensures ParseLong(s) == None
  {
    var start := DigitsStart(s);
    if IsNumeral(s) {
      DigitsValuePrefix(s[start..], j - start);
      assert s[start..][..j - start] == s[start..j];
    }
  }

  /** The decimal digits of a natural number, without leading zeros. */
  function NatDigits(n: nat): (s: string)
    ensures |s| > 0 && AllDigits(s)
  {
    if n < 10 then [DigitChar(n)] else NatDigits(n / 10) + [DigitChar(n % 10)]
  }

  /** `Long.toString`: a minus sign for negative values, then the digits. */
  function DecimalString(v: int): string
  {
    if v < 0 then "-" + NatDigits(-v) else NatDigits(v)
  }

  lemma {:induction false} NatDigitsValue(n: nat)
    ensures DigitsValue(NatDigits(n)) == n
  {
    var s := NatDigits(n);
    if n >= 10 {
      NatDigitsValue(n / 10);
      assert s[..|s| - 1] == NatDigits(n / 10);
    }
  }

  /** Every `long` written in decimal parses back to itself. */
  lemma ParseLongDecimalRoundTrip(v: Int64)
    ensures ParseLong(DecimalString(v)) == Some(v)
  {
    var s := DecimalString(v);
    if v < 0 {
      var digits := NatDigits(-(v as int));
      NatDigitsValue(-(v as int));
      assert s == "-" + digits;
      assert s[1..] == digits;
      assert DigitsStart(s) == 1;
      assert IsNumeral(s);
      assert NumeralValue(s) == v;
    } else {
      NatDigitsValue(v);
      assert s == NatDigits(v);
      assert IsDigit(s[0]);
      assert DigitsStart(s) == 0;
      assert s[0..] == s;
      assert NumeralValue(s) == v;
    }
  }

  /** A numeral never begins or ends with a character that `trim` would remove, so a
      padded string is never parsed. */
  lemma PaddedIsNotNumeral(s: string)
    requires |s| > 0 && (s[0] <= ' ' || s[|s| - 1] <= ' ')
    ensures ParseLong(s) == None
  {
  }
}
