/**
  The zone suffix of a timestamp (everything from offset 19 on). The validator
  accepts the literal "Z" or a string that fully matches one of two regular
  expressions, `[-+][0-1][0-9]:[0-5][0-9]:[0-5][0-9]` and
  `[-+]2[0-3]:[0-5][0-9]:[0-5][0-9]`. Each pattern is a fixed sequence of
  character classes, so a full match is a per-character check over nine characters.
 */
module TimeZone {
  import opened JavaInt

  /** A bracketed character class: a list of characters, or a range `lo-hi`. */
  datatype CharClass = Among(chars: string) | Span(lo: char, hi: char)

  predicate InClass(c: char, k: CharClass) {
    match k
    case Among(chars) => c in chars
    case Span(lo, hi) => lo <= c <= hi
  }

  /** `String.matches`: the whole string, not a prefix, must match the pattern. */
  predicate FullMatch(z: string, pattern: seq<CharClass>) {
    |z| == |pattern| && forall i :: 0 <= i < |z| ==> InClass(z[i], pattern[i])
  }

  /** `[-+][0-1][0-9]:[0-5][0-9]:[0-5][0-9]`: offsets with hours 00..19. */
  const LowHourOffset: seq<CharClass> :=
    [Among("-+"), Span('0', '1'), Span('0', '9'), Among(":"),
     Span('0', '5'), Span('0', '9'), Among(":"), Span('0', '5'), Span('0', '9')]

  /** `[-+]2[0-3]:[0-5][0-9]:[0-5][0-9]`: offsets with hours 20..23. */
  const HighHourOffset: seq<CharClass> :=
    [Among("-+"), Among("2"), Span('0', '3'), Among(":"),
     Span('0', '5'), Span('0', '9'), Among(":"), Span('0', '5'), Span('0', '9')]

  /** The zone check of `isValidDateTime`. */
  predicate IsTimeZone(z: string) {
    z == "Z" || FullMatch(z, LowHourOffset) || FullMatch(z, HighHourOffset)
  }

  /** Two decimal digits whose value is at most `hi`. */
  predicate TwoDigitsAtMost(t: string, hi: nat) {
    |t| == 2 && AllDigits(t) && DigitsValue(t) <= hi
  }

  /** The numeric reading of the offset grammar: a sign, then hh:mm:ss with hh <= 23 and mm, ss <= 59. */
  predicate IsOffset(z: string) {
    && |z| == 9
    && (z[0] == '+' || z[0] == '-')
    && z[3] == ':' && z[6] == ':'
    && TwoDigitsAtMost(z[1..3], 23)
    && TwoDigitsAtMost(z[4..6], 59)
    && TwoDigitsAtMost(z[7..9], 59)
  }

  /** A zone suffix as meant: the UTC marker or a signed offset. */
  predicate IsZoneSpec(z: string) {
    z == "Z" || IsOffset(z)
  }

  lemma TwoDigitsValue(t: string)
    requires |t| == 2 && AllDigits(t)
    ensures DigitsValue(t) == 10 * DigitValue(t[0]) + DigitValue(t[1])
  {
    assert t[..1][..0] == [];
  }

  /** A two-character class pair `[0-5][0-9]` admits exactly the digit pairs 00..59. */
  lemma {:induction false} MinutePair(z: string, i: nat)
    requires i + 2 <= |z|
    ensures ('0' <= z[i] <= '5' && '0' <= z[i + 1] <= '9') <==> TwoDigitsAtMost(z[i..i + 2], 59)
  {
    var t := z[i..i + 2];
    assert t[0] == z[i] && t[1] == z[i + 1];
    if AllDigits(t) {
      TwoDigitsValue(t);
    }
  }

  /** Both hour patterns together admit exactly the digit pairs 00..23. */
  lemma {:induction false} HourPair(z: string)
    requires |z| == 9
    ensures (('0' <= z[1] <= '1' && '0' <= z[2] <= '9') || (z[1] == '2' && '0' <= z[2] <= '3'))
            <==> TwoDigitsAtMost(z[1..3], 23)
  {
    var t := z[1..3];
    assert t[0] == z[1] && t[1] == z[2];
    if AllDigits(t) {
      TwoDigitsValue(t);
    }
  }

  /** What both patterns share: nine characters, a sign, two colons and the classes of mm and ss. */
  predicate OffsetFrame(z: string) {
    && |z| == 9
    && (z[0] == '-' || z[0] == '+') && z[3] == ':' && z[6] == ':'
    && '0' <= z[4] <= '5' && '0' <= z[5] <= '9'
    && '0' <= z[7] <= '5' && '0' <= z[8] <= '9'
  }

  lemma {:induction false} LowHourMatch(z: string)
    ensures FullMatch(z, LowHourOffset) <==> OffsetFrame(z) && '0' <= z[1] <= '1' && '0' <= z[2] <= '9'
  {
    if OffsetFrame(z) && '0' <= z[1] <= '1' && '0' <= z[2] <= '9' {
      forall i | 0 <= i < 9 ensures InClass(z[i], LowHourOffset[i]) {
      }
    }
    if FullMatch(z, LowHourOffset) {
      assert InClass(z[0], LowHourOffset[0]) && InClass(z[3], LowHourOffset[3]) && InClass(z[6], LowHourOffset[6]);
    }
  }

  lemma {:induction false} HighHourMatch(z: string)
    ensures FullMatch(z, HighHourOffset) <==> OffsetFrame(z) && z[1] == '2' && '0' <= z[2] <= '3'
  {
    if OffsetFrame(z) && z[1] == '2' && '0' <= z[2] <= '3' {
      forall i | 0 <= i < 9 ensures InClass(z[i], HighHourOffset[i]) {
      }
    }
    if FullMatch(z, HighHourOffset) {
      assert InClass(z[0], HighHourOffset[0]) && InClass(z[1], HighHourOffset[1]);
      assert InClass(z[3], HighHourOffset[3]) && InClass(z[6], HighHourOffset[6]);
    }
  }

  /** The two regular expressions together say exactly what the offset grammar means. */
  lemma {:induction false} TimeZoneMeaning(z: string)
    ensures IsTimeZone(z) <==> IsZoneSpec(z)
  {
    LowHourMatch(z);
    HighHourMatch(z);
    if |z| == 9 {
      HourPair(z);
      MinutePair(z, 4);
      MinutePair(z, 7);
    }
  }
}
