/**
  The validator on concrete lines: those its unit tests use, and lines whose
  fields carry a sign. Each line is checked through character-level facts, which
  the helper lemmas below turn into facts about the parsed fields.
 */
module ValidatorCases {
  import opened Wrappers
  import opened JavaInt
  import opened TimeZone
  import opened DateTimeValidator
  import opened DateTimeGrammar

  /**
    A proof aid for concrete lines: the value of the two characters at `i` read
    directly from them, when they are two digits or a sign and a digit.
    `TwoCharField` shows that `ParseInt` reads the same value.
   */
  function TwoCharValue(s: string, i: nat): (v: Option<int>)
    requires i + 2 <= |s|
  {
    if IsDigit(s[i]) && IsDigit(s[i + 1]) then Some(10 * DigitValue(s[i]) + DigitValue(s[i + 1]))
    else if s[i] == '-' && IsDigit(s[i + 1]) then Some(-(DigitValue(s[i + 1]) as int))
    else if s[i] == '+' && IsDigit(s[i + 1]) then Some(DigitValue(s[i + 1]))
    else None
  }

  lemma TwoCharField(s: string, i: nat)
    requires i + 2 <= |s| && TwoCharValue(s, i).Some?
    ensures ParseInt(s[i..i + 2]) == TwoCharValue(s, i)
  {
    var t := s[i..i + 2];
    assert t[0] == s[i] && t[1] == s[i + 1];
    if IsDigit(s[i]) {
      TwoDigitsValue(t);
      ParseIntUnsigned(t);
    } else {
      assert t == [s[i]] + [s[i + 1]];
      assert DigitsValue([s[i + 1]]) == DigitValue(s[i + 1]) by {
        assert [s[i + 1]][..0] == [];
      }
      ParseIntSigned(s[i], [s[i + 1]]);
    }
  }

  predicate TwoCharIn(s: string, i: nat, lo: int, hi: int)
    requires i + 2 <= |s|
  {
    TwoCharValue(s, i).Some? && lo <= TwoCharValue(s, i).value <= hi
  }

  /** The fixed prefix, stated on characters: separators, an optionally signed year, fields in range. */
  predicate PrefixByCharacters(s: string) {
    && |s| >= MinLength
    && SeparatorsInPlace(s)
    && (IsDigit(s[0]) || s[0] == '+' || s[0] == '-')
    && IsDigit(s[1]) && IsDigit(s[2]) && IsDigit(s[3])
    && TwoCharIn(s, 5, 1, 12) && TwoCharIn(s, 8, 1, 31)
    && TwoCharIn(s, 11, 0, 23) && TwoCharIn(s, 14, 0, 59) && TwoCharIn(s, 17, 0, 59)
  }

  /** A line whose prefix is right on characters and whose zone is right is accepted. */
  lemma AcceptedByCharacters(s: string)
    requires PrefixByCharacters(s) && IsZoneSpec(s[ZoneStart..])
    ensures IsValidDateTime(s)
  {
    var year := s[0..4];
    assert year[0] == s[0] && year[1..] == [s[1], s[2], s[3]];
    ParseIntComplete(year);
    TwoCharField(s, 5);
    TwoCharField(s, 8);
    TwoCharField(s, 11);
    TwoCharField(s, 14);
    TwoCharField(s, 17);
    RenderSplit(s);
    WellFormedIsAccepted(Split(s));
  }

  lemma AcceptedUtc(s: string)
    requires PrefixByCharacters(s) && |s| == MinLength && s[ZoneStart] == 'Z'
    ensures IsValidDateTime(s)
  {
    assert s[19..] == "Z";
    AcceptedByCharacters(s);
  }

  /** A signed offset, stated on characters: hh <= 23, mm <= 59, ss <= 59. */
  lemma AcceptedOffset(s: string)
    requires PrefixByCharacters(s) && |s| == MinLength + 8
    requires (s[19] == '+' || s[19] == '-') && s[22] == ':' && s[25] == ':'
    requires IsDigit(s[20]) && IsDigit(s[21]) && 10 * DigitValue(s[20]) + DigitValue(s[21]) <= 23
    requires IsDigit(s[23]) && IsDigit(s[24]) && 10 * DigitValue(s[23]) + DigitValue(s[24]) <= 59
    requires IsDigit(s[26]) && IsDigit(s[27]) && 10 * DigitValue(s[26]) + DigitValue(s[27]) <= 59
    ensures IsValidDateTime(s)
  {
    var z := s[19..];
    assert z[1..3] == [s[20], s[21]] && z[4..6] == [s[23], s[24]] && z[7..9] == [s[26], s[27]];
    TwoDigitsValue(z[1..3]);
    TwoDigitsValue(z[4..6]);
    TwoDigitsValue(z[7..9]);
    AcceptedByCharacters(s);
  }

  /** A numeric field whose two characters parse to a value outside its range rejects the line. */
  lemma FieldOutOfRange(s: string, i: nat, lo: int, hi: int)
    requires |s| >= MinLength
    requires (i, lo, hi) in {(5, 1, 12), (8, 1, 31), (11, 0, 23), (14, 0, 59), (17, 0, 59)}
    requires ParseInt(s[i..i + 2]).Some? && !(lo <= ParseInt(s[i..i + 2]).value <= hi)
    ensures !IsValidDateTime(s)
  {
  }

  /** A character that is neither a digit nor, in first place, a sign makes the field fail to parse. */
  lemma NotANumber(s: string, lo: nat, hi: nat, k: nat)
    requires lo + k < hi <= |s| && !IsDigit(s[lo + k])
    requires k == 0 ==> s[lo] != '+' && s[lo] != '-'
    ensures ParseInt(s[lo..hi]).None?
  {
    var t := s[lo..hi];
    assert t[k] == s[lo + k];
    assert !IsSignedDecimal(t) by {
      if k > 0 {
        assert t[1..][k - 1] == t[k];
      }
    }
    ParseIntSound(t);
  }

  /** A one-character zone other than "Z" rejects the line. */
  lemma OneCharZoneNotZ(s: string)
    requires |s| == MinLength && s[ZoneStart] != 'Z'
    ensures !IsValidDateTime(s)
  {
    assert s[19..][0] == s[19];
  }

  /** An offset whose hour digits exceed 23 rejects the line. */
  lemma OffsetHourTooLarge(s: string)
    requires |s| == MinLength + 8 && IsDigit(s[20]) && IsDigit(s[21])
    requires 10 * DigitValue(s[20]) + DigitValue(s[21]) > 23
    ensures !IsValidDateTime(s)
  {
    var z := s[19..];
    assert z[1..3][0] == s[20] && z[1..3][1] == s[21];
    TwoDigitsValue(z[1..3]);
  }

  /** The valid line of the unit tests. */
  lemma AcceptsCanonical()
    ensures IsValidDateTime("2022-01-01T12:30:45Z")
  {
    AcceptedUtc("2022-01-01T12:30:45Z");
  }

  /** The largest offset the zone grammar admits. */
  lemma AcceptsLargestOffset()
    ensures IsValidDateTime("2022-01-01T12:30:45+23:59:59")
  {
    AcceptedOffset("2022-01-01T12:30:45+23:59:59");
  }

  /** `parseInt` takes a sign: a negative year is accepted. */
  lemma AcceptsSignedYear()
    ensures IsValidDateTime("-999-01-01T00:00:00Z")
  {
    AcceptedUtc("-999-01-01T00:00:00Z");
  }

  /** A signed one-digit month is accepted. */
  lemma AcceptsSignedMonth()
    ensures IsValidDateTime("2022-+1-01T00:00:00Z")
  {
    AcceptedUtc("2022-+1-01T00:00:00Z");
  }

  /** "-0" parses to 0, so it passes as an hour. */
  lemma AcceptsNegativeZeroHour()
    ensures IsValidDateTime("2022-01-01T-0:00:00Z")
  {
    AcceptedUtc("2022-01-01T-0:00:00Z");
  }

  /** No calendar check: the 31st of February is accepted. */
  lemma AcceptsFebruary31()
    ensures IsValidDateTime("2023-02-31T00:00:00Z")
  {
    AcceptedUtc("2023-02-31T00:00:00Z");
  }

  /** The lines of the unit tests that fail on length alone: too short, or no zone of 1 or 9 characters. */
  lemma RejectsByLength()
    ensures !IsValidDateTime("2022-01-01T12:30:4")
    ensures !IsValidDateTime("invalid-date-time")
    ensures !IsValidDateTime("2022-01-01T12:30:4X")
    ensures !IsValidDateTime("2022-01-01T12:30:45ZZ")
  {
  }

  lemma RejectsWrongSeparator()
    ensures !IsValidDateTime("2022/01/01T12:30:45Z")
  {
    var s := "2022/01/01T12:30:45Z";
    SeparatorChangeRejected(s, 4, '/');
    assert s[4 := '/'] == s;
  }

  lemma RejectsMonth13()
    ensures !IsValidDateTime("2022-13-41T25:30:45Z")
  {
    TwoCharField("2022-13-41T25:30:45Z", 5);
    FieldOutOfRange("2022-13-41T25:30:45Z", 5, 1, 12);
  }

  /** The year "2X22" makes `parseInt` throw; the exception is caught and the line rejected. */
  lemma RejectsUnparsableYear()
    ensures !IsValidDateTime("2X22-X1-X1T12:3X:45ZZ")
  {
    var s := "2X22-X1-X1T12:3X:45ZZ";
    NotANumber(s, 0, 4, 1);
    UnparsableFieldRejected(s, 0);
  }

  lemma RejectsUnknownZone()
    ensures !IsValidDateTime("2022-01-01T12:30:45X")
  {
    OneCharZoneNotZ("2022-01-01T12:30:45X");
  }

  lemma RejectsOffsetHour24()
    ensures !IsValidDateTime("2022-01-01T12:30:45+24:00:00")
  {
    OffsetHourTooLarge("2022-01-01T12:30:45+24:00:00");
  }

  /** The invalid lines of the filtering test that fail on a field: a space for 'T', month 0, day 32, hour 24. */
  lemma RejectsSpaceForT()
    ensures !IsValidDateTime("2023-01-01 00:00:00Z")
  {
    SeparatorChangeRejected("2023-01-01T00:00:00Z", 10, ' ');
    assert "2023-01-01T00:00:00Z"[10 := ' '] == "2023-01-01 00:00:00Z";
  }

  lemma RejectsMonth0()
    ensures !IsValidDateTime("2023-00-01T00:00:00Z")
  {
    TwoCharField("2023-00-01T00:00:00Z", 5);
    FieldOutOfRange("2023-00-01T00:00:00Z", 5, 1, 12);
  }

  lemma RejectsDay32()
    ensures !IsValidDateTime("2023-01-32T00:00:00Z")
  {
    TwoCharField("2023-01-32T00:00:00Z", 8);
    FieldOutOfRange("2023-01-32T00:00:00Z", 8, 1, 31);
  }

  lemma RejectsHour24()
    ensures !IsValidDateTime("2022-11-30T24:01:01Z")
  {
    TwoCharField("2022-11-30T24:01:01Z", 11);
    FieldOutOfRange("2022-11-30T24:01:01Z", 11, 0, 23);
  }

  /** The invalid lines of the filtering test that fail on length: no date, a short offset, text after "Z". */
  lemma RejectsFilterTestLengths()
    ensures !IsValidDateTime("24:00:00Z")
    ensures !IsValidDateTime("2023-01-01T00:00:00+24:00")
    ensures !IsValidDateTime("2023-01-01T00:00:00+00:60")
    ensures !IsValidDateTime("Invalid-Date-Time")
    ensures !IsValidDateTime("2023-01-01T00:00:00Z12:00")
  {
  }

  /** The valid lines of the file-processing tests. */
  lemma AcceptsNoonLine()
    ensures IsValidDateTime("2022-01-01T12:00:00Z")
  {
    AcceptedUtc("2022-01-01T12:00:00Z");
  }

  lemma AcceptsAfternoonLine()
    ensures IsValidDateTime("2022-02-01T15:30:00Z")
  {
    AcceptedUtc("2022-02-01T15:30:00Z");
  }
}
