/**
  A model of `java.lang.Integer.parseInt(String)` with radix 10, restricted to the
  ASCII digits '0'..'9': an optional leading '+' or '-', then at least one digit,
  and a value that fits a 32-bit Java `int`. Every other string raises
  `NumberFormatException`, modelled here as `None`.
 */
module JavaInt {
  import opened Wrappers

  /** The range of a Java `int`. */
  const IntMin: int := -0x8000_0000
  const IntMax: int := 0x7fff_ffff

  predicate IsDigit(c: char) {
    '0' <= c <= '9'
  }

  function DigitValue(c: char): (d: nat)
    requires IsDigit(c)
    ensures d < 10
  {
    c as int - '0' as int
  }

  function DigitChar(d: nat): (c: char)
    requires d < 10
    ensures IsDigit(c) && DigitValue(c) == d
  {
    ('0' as int + d) as char
  }

  predicate AllDigits(s: string) {
    forall i :: 0 <= i < |s| ==> IsDigit(s[i])
  }

  function Pow10(n: nat): (p: nat)
    ensures p >= 1
  {
    if n == 0 then 1 else 10 * Pow10(n - 1)
  }

  /** The value of a run of decimal digits, most significant first; fewer than |s| digits' worth. */
  function DigitsValue(s: string): (v: nat)
    requires AllDigits(s)
    ensures v < Pow10(|s|)
  {
    if s == [] then 0 else 10 * DigitsValue(s[..|s| - 1]) + DigitValue(s[|s| - 1])
  }

  /** The language `parseInt` accepts, before its range check: an optional sign, then digits. */
  predicate IsSignedDecimal(s: string) {
    || (s != [] && AllDigits(s))
    || (|s| >= 2 && (s[0] == '+' || s[0] == '-') && AllDigits(s[1..]))
  }

  /** `Integer.parseInt(s)`: `None` stands for the `NumberFormatException`. */
  function ParseInt(s: string): (r: Option<int>)
  {
    if |s| == 0 then None
    else
      var start := if s[0] == '-' || s[0] == '+' then 1 else 0;
      var digits := s[start..];
      if |digits| == 0 || !AllDigits(digits) then None
      else
        var v: int := if s[0] == '-' then -(DigitsValue(digits) as int) else DigitsValue(digits);
        if IntMin <= v <= IntMax then Some(v) else None
  }

  /** The zero-padded decimal text of `n` in exactly `width` digits. */
  function Decimal(n: nat, width: nat): (s: string)
    requires n < Pow10(width)
    ensures |s| == width && AllDigits(s) && DigitsValue(s) == n
  {
    if width == 0 then []
    else
      var front := Decimal(n / 10, width - 1);
      var s := front + [DigitChar(n % 10)];
      assert s[..|s| - 1] == front;
      s
  }

  /** Appending a digit shifts the value one decimal place. */
  lemma DigitsValueAppend(s: string, c: char)
    requires AllDigits(s) && IsDigit(c)
    ensures AllDigits(s + [c]) && DigitsValue(s + [c]) == 10 * DigitsValue(s) + DigitValue(c)
  {
    assert (s + [c])[..|s|] == s;
  }

  lemma {:induction false} Pow10Monotone(m: nat, n: nat)
    requires m <= n
    ensures Pow10(m) <= Pow10(n)
  {
    if m < n {
      Pow10Monotone(m, n - 1);
    }
  }

  /** Whatever `parseInt` accepts is an optionally signed run of digits whose value is a Java `int`. */
  lemma ParseIntSound(s: string)
    ensures ParseInt(s).Some? ==> IsSignedDecimal(s) && IntMin <= ParseInt(s).value <= IntMax
  {
  }

  /** Conversely, every optionally signed run of at most nine digits parses. */
  lemma {:induction false} ParseIntComplete(s: string)
    requires IsSignedDecimal(s) && |s| <= 9
    ensures ParseInt(s).Some?
  {
    var start := if s[0] == '-' || s[0] == '+' then 1 else 0;
    var digits := s[start..];
    Pow10Monotone(|digits|, 9);
    assert DigitsValue(digits) < Pow10(9);
  }

  /** An unsigned run of digits parses to its decimal value. */
  lemma ParseIntUnsigned(s: string)
    requires s != [] && AllDigits(s) && DigitsValue(s) <= IntMax
    ensures ParseInt(s) == Some(DigitsValue(s))
  {
    assert s[0..] == s;
  }

  /** A leading '+' is accepted and ignored; a leading '-' negates. */
  lemma ParseIntSigned(sign: char, digits: string)
    requires sign == '+' || sign == '-'
    requires digits != [] && AllDigits(digits) && DigitsValue(digits) <= IntMax
    ensures ParseInt([sign] + digits) == Some(if sign == '-' then -(DigitsValue(digits) as int) else DigitsValue(digits))
  {
    assert ([sign] + digits)[1..] == digits;
  }

  /** A parsed value lies within what `|s|` characters can spell: for two characters -9..99, for four -999..9999. */
  lemma {:induction false} ParseIntBounds(s: string)
    requires ParseInt(s).Some?
    ensures -(Pow10(|s| - 1) - 1) <= ParseInt(s).value < Pow10(|s|)
  {
    var start := if s[0] == '-' || s[0] == '+' then 1 else 0;
    var digits := s[start..];
    Pow10Monotone(|s| - 1, |s|);
    if start == 1 {
      assert |digits| == |s| - 1;
    } else {
      Pow10Monotone(|s| - 1, |digits|);
    }
  }

  /** Round trip: the zero-padded decimal text of `n` parses back to `n`. */
  lemma ParseIntDecimal(n: nat, width: nat)
    requires 0 < width && n < Pow10(width) && n <= IntMax
    ensures ParseInt(Decimal(n, width)) == Some(n)
  {
    ParseIntUnsigned(Decimal(n, width));
  }
}
