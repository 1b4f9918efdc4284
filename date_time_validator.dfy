/**
  `DateTimeValidator.isValidDateTime`: whether one line is a timestamp of the
  fixed-offset layout `YYYY-MM-DDThh:mm:ss<zone>`. Six numeric fields are read
  with `Integer.parseInt` at fixed offsets, five separators are compared, the
  month, day, hour, minute and second are range-checked (no calendar: day 31 is
  accepted for every month; the year has no range) and the suffix from offset 19
  must be a zone. The Java code catches the parse and index exceptions, so the
  predicate is total and a field that does not parse makes it false.
 */
module DateTimeValidator {
  import opened Wrappers
  import opened JavaInt
  import opened TimeZone

  /** The shortest acceptable line: the fixed prefix plus a one-character zone. */
  const MinLength: nat := 20
  /** Where the zone suffix starts. */
  const ZoneStart: nat := 19

  /** The offset of each separator, with the character expected there. */
  const SeparatorAt: map<nat, char> := map[4 := '-', 7 := '-', 10 := 'T', 13 := ':', 16 := ':']

  /** Each separator offset holds the character `SeparatorAt` names for it. */
  predicate SeparatorsInPlace(s: string)
    requires |s| >= ZoneStart
  {
    && s[4] == SeparatorAt[4] && s[7] == SeparatorAt[7] && s[10] == SeparatorAt[10]
    && s[13] == SeparatorAt[13] && s[16] == SeparatorAt[16]
  }

  predicate IsValidDateTime(s: string) {
    if |s| < MinLength then false
    else
      var year := ParseInt(s[0..4]);
      var month := ParseInt(s[5..7]);
      var day := ParseInt(s[8..10]);
      var hour := ParseInt(s[11..13]);
      var minute := ParseInt(s[14..16]);
      var second := ParseInt(s[17..19]);
      var timeZone := s[19..];
      if year.None? || month.None? || day.None? || hour.None? || minute.None? || second.None? then
        false
      else if !SeparatorsInPlace(s) then false
      else if month.value < 1 || month.value > 12 then false
      else if day.value < 1 || day.value > 31 then false
      else if hour.value < 0 || hour.value > 23 then false
      else if minute.value < 0 || minute.value > 59 then false
      else if second.value < 0 || second.value > 59 then false
      else IsTimeZone(timeZone)
  }

  /**
    The shape of an accepted line: 20 characters with a "Z" zone or 28 with an
    offset, the five separators in place, and a zone that is "Z" or a signed
    offset with hh <= 23 and mm, ss <= 59.
   */
  lemma {:induction false} AcceptedShape(s: string)
    ensures IsValidDateTime(s) ==> |s| == MinLength || |s| == MinLength + 8
    ensures IsValidDateTime(s) ==> forall i :: i in SeparatorAt ==> s[i] == SeparatorAt[i]
    ensures IsValidDateTime(s) ==> IsZoneSpec(s[ZoneStart..])
  {
    if |s| >= MinLength {
      TimeZoneMeaning(s[ZoneStart..]);
    }
  }

  /** Any line shorter than the minimal layout is rejected, before any field is read. */
  lemma ShortRejected(s: string)
    requires |s| < MinLength
    ensures !IsValidDateTime(s)
  {
  }

  /** A wrong character at any separator offset rejects the line, whatever the rest of it: so does changing one separator of an accepted line. */
  lemma SeparatorChangeRejected(s: string, i: nat, c: char)
    requires i in SeparatorAt && i < |s| && c != SeparatorAt[i]
    ensures !IsValidDateTime(s[i := c])
  {
    AcceptedShape(s[i := c]);
  }

  /** A field that `parseInt` refuses makes the line rejected rather than raising an error. */
  lemma UnparsableFieldRejected(s: string, start: nat)
    requires |s| >= MinLength
    requires start in {0, 5, 8, 11, 14, 17}
    requires ParseInt(s[start..if start == 0 then 4 else start + 2]).None?
    ensures !IsValidDateTime(s)
  {
  }

  /** Nothing may follow a "Z" zone marker. */
  lemma NothingAfterUtcMarker(s: string)
    requires IsValidDateTime(s) && s[ZoneStart] == 'Z'
    ensures |s| == MinLength
  {
    AcceptedShape(s);
  }
}
