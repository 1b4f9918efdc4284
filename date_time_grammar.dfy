/**
  An independent description of the lines `isValidDateTime` accepts: a line is a
  `Stamp` of seven texts (six numeric fields and the zone) joined by the five
  separators, where each field has its fixed width, parses as a Java `int` and
  lies in its range. The lemmas show that the validator accepts exactly the
  renderings of well-formed stamps, and that every zero-padded timestamp with
  in-range fields is accepted.
 */
module DateTimeGrammar {
  import opened Wrappers
  import opened JavaInt
  import opened TimeZone
  import opened DateTimeValidator

  /** The seven texts of a candidate line, as cut out at the fixed offsets. */
  datatype Stamp = Stamp(year: string, month: string, day: string,
                         hour: string, minute: string, second: string, zone: string)

  function Render(t: Stamp): (r: string) {
    t.year + "-" + t.month + "-" + t.day + "T" + t.hour + ":" + t.minute + ":" + t.second + t.zone
  }

  /** The texts at offsets 0..4, 5..7, 8..10, 11..13, 14..16, 17..19 and 19.. of a line. */
  function Split(s: string): (t: Stamp)
    requires |s| >= ZoneStart
  {
    Stamp(s[0..4], s[5..7], s[8..10], s[11..13], s[14..16], s[17..19], s[19..])
  }

  /** A field of exactly `width` characters that `parseInt` reads as a value in lo..hi. */
  predicate FieldIn(text: string, width: nat, lo: int, hi: int) {
    |text| == width && ParseInt(text).Some? && lo <= ParseInt(text).value <= hi
  }

  /** The year is any four characters that parse; no calendar check relates day to month. */
  predicate WellFormed(t: Stamp) {
    && FieldIn(t.year, 4, IntMin, IntMax)
    && FieldIn(t.month, 2, 1, 12)
    && FieldIn(t.day, 2, 1, 31)
    && FieldIn(t.hour, 2, 0, 23)
    && FieldIn(t.minute, 2, 0, 59)
    && FieldIn(t.second, 2, 0, 59)
    && IsZoneSpec(t.zone)
  }

  /** Cutting a rendered stamp at the fixed offsets gives back its texts. */
  lemma {:induction false} SplitRender(t: Stamp)
    requires |t.year| == 4 && |t.month| == 2 && |t.day| == 2
    requires |t.hour| == 2 && |t.minute| == 2 && |t.second| == 2
    ensures |Render(t)| >= ZoneStart && Split(Render(t)) == t
  {
    var s := Render(t);
    assert s == t.year + "-" + t.month + "-" + t.day + "T" + t.hour + ":" + t.minute + ":" + t.second + t.zone;
    assert s[0..4] == t.year;
    assert s[5..7] == t.month;
    assert s[8..10] == t.day;
    assert s[11..13] == t.hour;
    assert s[14..16] == t.minute;
    assert s[17..19] == t.second;
    assert s[19..] == t.zone;
  }

  /** A line with the five separators in place is the rendering of its own cut. */
  lemma {:induction false} RenderSplit(s: string)
    requires |s| >= ZoneStart
    requires SeparatorsInPlace(s)
    ensures Render(Split(s)) == s
  {
    var r := Render(Split(s));
    assert |r| == |s|;
    forall i | 0 <= i < |s| ensures r[i] == s[i] {
    }
  }

  /** Soundness: an accepted line is a well-formed stamp, rendered. */
  lemma {:induction false} AcceptedIsWellFormed(s: string)
    ensures IsValidDateTime(s) ==> WellFormed(Split(s)) && Render(Split(s)) == s
  {
    if IsValidDateTime(s) {
      AcceptedShape(s);
      RenderSplit(s);
    }
  }

  /** Completeness: every well-formed stamp renders to an accepted line. */
  lemma {:induction false} WellFormedIsAccepted(t: Stamp)
    requires WellFormed(t)
    ensures IsValidDateTime(Render(t))
  {
    SplitRender(t);
    var s := Render(t);
    assert SeparatorsInPlace(s);
    assert s[0..4] == t.year && s[5..7] == t.month && s[8..10] == t.day;
    assert s[11..13] == t.hour && s[14..16] == t.minute && s[17..19] == t.second && s[19..] == t.zone;
    TimeZoneMeaning(t.zone);
  }

  /** The validator accepts exactly the renderings of well-formed stamps. */
  lemma Characterisation(s: string)
    ensures IsValidDateTime(s) <==> exists t :: WellFormed(t) && Render(t) == s
  {
    if IsValidDateTime(s) {
      AcceptedIsWellFormed(s);
    }
    if exists t :: WellFormed(t) && Render(t) == s {
      var t :| WellFormed(t) && Render(t) == s;
      WellFormedIsAccepted(t);
    }
  }

  /** A timestamp as numbers, for writing it in the canonical zero-padded layout. */
  datatype Zone = Utc | Offset(negative: bool, hours: nat, minutes: nat, seconds: nat)
  datatype DateTime = DateTime(year: nat, month: nat, day: nat,
                               hour: nat, minute: nat, second: nat, zone: Zone)

  predicate ZoneInRange(z: Zone) {
    z.Offset? ==> z.hours <= 23 && z.minutes <= 59 && z.seconds <= 59
  }

  /** Four-digit year, fields in range; any day 1..31 in any month. */
  predicate InRange(d: DateTime) {
    && d.year <= 9999
    && 1 <= d.month <= 12 && 1 <= d.day <= 31
    && d.hour <= 23 && d.minute <= 59 && d.second <= 59
    && ZoneInRange(d.zone)
  }

  function FormatZone(z: Zone): (r: string)
    requires ZoneInRange(z)
  {
    match z
    case Utc => "Z"
    case Offset(negative, h, m, sec) =>
      [if negative then '-' else '+'] + Decimal(h, 2) + ":" + Decimal(m, 2) + ":" + Decimal(sec, 2)
  }

  function Format(d: DateTime): (r: string)
    requires InRange(d)
  {
    Render(Stamp(Decimal(d.year, 4), Decimal(d.month, 2), Decimal(d.day, 2),
                 Decimal(d.hour, 2), Decimal(d.minute, 2), Decimal(d.second, 2), FormatZone(d.zone)))
  }

  lemma {:induction false} FormatZoneIsZone(z: Zone)
    requires ZoneInRange(z)
    ensures IsZoneSpec(FormatZone(z))
  {
    if z.Offset? {
      var s := FormatZone(z);
      assert s[1..3] == Decimal(z.hours, 2);
      assert s[4..6] == Decimal(z.minutes, 2);
      assert s[7..9] == Decimal(z.seconds, 2);
    }
  }

  /** Every timestamp in the canonical layout with in-range fields is accepted. */
  lemma {:induction false} FormatAccepted(d: DateTime)
    requires InRange(d)
    ensures IsValidDateTime(Format(d))
  {
    ParseIntDecimal(d.year, 4);
    ParseIntDecimal(d.month, 2);
    ParseIntDecimal(d.day, 2);
    ParseIntDecimal(d.hour, 2);
    ParseIntDecimal(d.minute, 2);
    ParseIntDecimal(d.second, 2);
    FormatZoneIsZone(d.zone);
    WellFormedIsAccepted(Stamp(Decimal(d.year, 4), Decimal(d.month, 2), Decimal(d.day, 2),
                               Decimal(d.hour, 2), Decimal(d.minute, 2), Decimal(d.second, 2),
                               FormatZone(d.zone)));
  }

  /** Day 31 is accepted in every month, February included: there is no calendar check. */
  lemma Day31EveryMonth(year: nat, month: nat)
    requires year <= 9999 && 1 <= month <= 12
    ensures IsValidDateTime(Format(DateTime(year, month, 31, 0, 0, 0, Utc)))
  {
    FormatAccepted(DateTime(year, month, 31, 0, 0, 0, Utc));
  }
}
