/**
  Decimal text for integers, as Foundation's `String(format: "%02d", n)`
  writes one field, and the reader that says what a written field means.
  The reader is not part of the widget; it is the inverse of the writer.
 */
module DecimalText {
  import opened Options

  /** Size of the C `int` that a `%d` conversion reads. */
  const Int32Modulus: int := 0x1_0000_0000

  /**
    The C `int` a `%d` conversion reads when handed a 64-bit Swift `Int`:
    the low 32 bits of the argument, taken as a signed value.
   */
  function LowInt32(n: int): (r: int)
    ensures -0x8000_0000 <= r < 0x8000_0000
    ensures (n - r) % Int32Modulus == 0
    ensures -0x8000_0000 <= n < 0x8000_0000 ==> r == n
  {
    (n + 0x8000_0000) % Int32Modulus - 0x8000_0000
  }

  predicate IsDigit(c: char) {
    '0' <= c <= '9'
  }

  function DigitValue(c: char): (d: nat)
    requires IsDigit(c)
    ensures d < 10 && DigitChar(d) == c
  {
    c as int - '0' as int
  }

  /** A non-empty run of decimal digits. */
  predicate IsDecimal(s: string) {
    |s| > 0 && forall i :: 0 <= i < |s| ==> IsDigit(s[i])
  }

  function DigitChar(d: nat): (c: char)
    requires d < 10
    ensures IsDigit(c) && c as int - '0' as int == d
  {
    ('0' as int + d) as char
  }

  /** The shortest decimal spelling of `n`: no sign and no leading zero. */
  function Decimal(n: nat): (s: string)
    ensures IsDecimal(s)
    ensures (|s| == 1) == (n < 10)
    ensures n < 100 ==> |s| <= 2
    ensures s[0] == '0' ==> n == 0
    decreases n
  {
    if n < 10 then [DigitChar(n)] else Decimal(n / 10) + [DigitChar(n % 10)]
  }

  /** The number a run of digits denotes, most significant digit first. */
  function DigitsValue(s: string): nat
    requires forall i :: 0 <= i < |s| ==> IsDigit(s[i])
  {
    if s == [] then 0 else DigitsValue(s[..|s| - 1]) * 10 + DigitValue(s[|s| - 1])
  }

  lemma {:induction false} DecimalRoundTrip(n: nat)
    ensures DigitsValue(Decimal(n)) == n
    decreases n
  {
    if n < 10 {
      assert Decimal(n)[..0] == [];
    } else {
      var prefix := Decimal(n / 10);
      var s := prefix + [DigitChar(n % 10)];
      assert s[..|s| - 1] == prefix;
      DecimalRoundTrip(n / 10);
    }
  }

  /**
    One `%02d` field: at least two characters wide, padded with zeros after
    the sign; a negative number already fills the width with its minus sign.
   */
  function Pad2(n: int): (s: string)
    ensures |s| >= 2
    ensures forall i :: 0 <= i < |s| ==> s[i] != ':'
    ensures n >= 0 ==> IsDecimal(s)
    ensures 0 <= n < 100 ==> |s| == 2
    ensures n < 0 ==> s[0] == '-'
    ensures n >= 10 ==> s[0] != '0'
    ensures n < 0 ==> s[1] != '0'
  {
    if n < 0 then "-" + Decimal(-n)
    else if n < 10 then "0" + Decimal(n)
    else Decimal(n)
  }

  /** Reads back one field: an optional minus sign, then digits. */
  function ParseField(s: string): Option<int>
  {
    if IsDecimal(s) then Some(DigitsValue(s))
    else if |s| >= 2 && s[0] == '-' && IsDecimal(s[1..]) then var m: int := DigitsValue(s[1..]); Some(-m)
    else None
  }

  lemma Pad2RoundTrip(n: int)
    ensures ParseField(Pad2(n)) == Some(n)
  {
    var s := Pad2(n);
    if n < 0 {
      assert s[1..] == Decimal(-n);
      assert !IsDigit(s[0]);
      DecimalRoundTrip(-n);
    } else if n < 10 {
      assert s == ['0', DigitChar(n)];
      assert DigitsValue(s[..1]) == 0 by {
        assert s[..1] == ['0'] && ['0'][..0] == [];
      }
      assert IsDecimal(s);
    } else {
      DecimalRoundTrip(n);
    }
  }
}
