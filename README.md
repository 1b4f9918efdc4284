# DateTimeValidator in Dafny

This project models the core of `DateTimeValidator`, a small Java tool that reads
candidate timestamps one per line, keeps those of the layout
`YYYY-MM-DDThh:mm:ss<zone>`, and writes each distinct accepted line once.

- `isValidDateTime` is a pure predicate. It is modelled as the Dafny predicate
  `DateTimeValidator.IsValidDateTime`, with the same checks in the same order:
  - a length of at least 20;
  - six fields read with `Integer.parseInt` at offsets 0, 5, 8, 11, 14 and 17;
  - the separators `-`, `-`, `T`, `:`, `:` at offsets 4, 7, 10, 13 and 16;
  - month 1..12, day 1..31, hour 0..23, minute 0..59 and second 0..59;
  - a zone suffix from offset 19 that is `Z` or fully matches one of two regular expressions.
- `Integer.parseInt` is modelled in `JavaInt.ParseInt`. It takes an optional `+` or `-`,
  then at least one digit, and the value must fit a Java `int`; any other input
  gives `None`, which stands for `NumberFormatException`. The Java code catches that
  exception and returns `false`, so the predicate is total.
- The two zone regular expressions are fixed sequences of character classes
  (`TimeZone.LowHourOffset`, `TimeZone.HighHourOffset`). `String.matches` is a
  full match, so a match checks all nine characters.
- The read loop of `fileProcessor` is the method `FileProcessor.CollectValid`.
  It walks the lines read and inserts each accepted line into a set. It is
  proved against the specification `FileProcessor.ValidSet`.

The independent descriptions the operations are proved against:
- `DateTimeGrammar.Stamp`, `Render` and `WellFormed` describe the accepted lines as seven texts.
  They are joined by the separators, and each field has its width and range.
  The validator accepts exactly the renderings of well-formed stamps.
- `TimeZone.IsZoneSpec` reads the zone grammar numerically: hh <= 23, mm and ss <= 59.
- `DateTimeGrammar.Format` writes a numeric timestamp in the canonical zero-padded layout.
- `FileProcessor.FilterValid` and `FileProcessor.Dedup` filter and deduplicate on sequences,
  and they give the output count.

The comments at src/main/DateTimeValidator.java:14 and :20 give the layout
`YYYY-MM-DDThh:mm:ssZ`, with four characters for the year and two for each other field.
The code reads each field with `Integer.parseInt`, which also accepts a leading sign.
The model follows the code, so `-999-01-01T00:00:00Z`, `2022-+1-01T00:00:00Z` and
`2022-01-01T-0:00:00Z` are accepted (`ValidatorCases.AcceptsSignedYear`,
`AcceptsSignedMonth`, `AcceptsNegativeZeroHour`).

Two comments in the unit tests describe the wrong failure path. Neither changes a test outcome:
- `"2022-01-01T12:30:4X"` (src/test/DateTimeValidatorTest.java:285) is only 19 characters
  long, so the length check rejects it before anything is parsed.
- `"2022-01-01T12:30:45ZZ"` (src/test/DateTimeValidatorTest.java:295) has 21 characters.
  The zone check rejects it, not an index error.

Files: `wrappers.dfy` (Option), `java_int.dfy`, `time_zone.dfy`,
`date_time_validator.dfy`, `date_time_grammar.dfy`, `validator_cases.dfy`,
`file_processor.dfy`.

## Model

| member | source | states |
|---|---|---|
| `JavaInt.ParseInt` | src/main/DateTimeValidator.java:21-26 | the body models `Integer.parseInt` on a field: an optional sign, at least one digit, and a value within Java `int`, with `None` for the `NumberFormatException`; its properties are stated by `ParseIntSound`, `ParseIntComplete`, `ParseIntSigned` and `ParseIntDecimal` |
| `JavaInt.DigitsValue` | src/main/DateTimeValidator.java:21-26 | the value of n decimal digits is below 10^n, so no field of at most four characters can overflow a Java `int` |
| `JavaInt.Decimal` | src/main/DateTimeValidator.java:21-26 | the zero-padded text of n in a given width has that width, is all digits, and reads back as n |
| `JavaInt.ParseIntSound` | src/main/DateTimeValidator.java:21-26 | whatever `parseInt` accepts is an optional sign and then digits, and its value is a Java `int` |
| `JavaInt.ParseIntComplete` | src/main/DateTimeValidator.java:21-26 | every optional sign followed by digits, up to nine characters, parses |
| `JavaInt.ParseIntUnsigned` | src/main/DateTimeValidator.java:21-26 | a run of digits parses to its decimal value |
| `JavaInt.ParseIntSigned` | src/main/DateTimeValidator.java:21-26 | a leading `+` is accepted and ignored, and a leading `-` negates |
| `JavaInt.ParseIntBounds` | src/main/DateTimeValidator.java:21-26 | a parsed value lies within what its characters can spell: -9..99 for two, -999..9999 for four |
| `JavaInt.ParseIntDecimal` | src/main/DateTimeValidator.java:21-26 | round trip: `parseInt` of the zero-padded text of n gives n |
| `TimeZone.IsTimeZone` | src/main/DateTimeValidator.java:49 | the body models the zone check: `Z` or a full match of either pattern; its meaning is stated by `TimeZoneMeaning` |
| `TimeZone.LowHourMatch` | src/main/DateTimeValidator.java:49 | `[-+][0-1][0-9]:[0-5][0-9]:[0-5][0-9]` matches exactly the signed offsets whose hour starts with 0 or 1 |
| `TimeZone.HighHourMatch` | src/main/DateTimeValidator.java:49 | `[-+]2[0-3]:[0-5][0-9]:[0-5][0-9]` matches exactly the signed offsets with hours 20..23 |
| `TimeZone.TimeZoneMeaning` | src/main/DateTimeValidator.java:49-51 | the zone check passes if and only if the suffix is `Z` or a sign, then hh:mm:ss with hh <= 23 and mm, ss <= 59 |
| `DateTimeValidator.IsValidDateTime` | src/main/DateTimeValidator.java:13-59 | the body models `isValidDateTime` check by check, in the source's order; its properties are stated by `AcceptedShape`, the rejection lemmas below and `DateTimeGrammar.Characterisation` |
| `DateTimeValidator.AcceptedShape` | src/main/DateTimeValidator.java:27-51 | an accepted line has 20 or 28 characters, all five separators, and a zone that is `Z` or a valid signed offset |
| `DateTimeValidator.ShortRejected` | src/main/DateTimeValidator.java:15-17 | every line shorter than 20 characters is rejected |
| `DateTimeValidator.SeparatorChangeRejected` | src/main/DateTimeValidator.java:30-34 | a wrong character at any separator offset rejects the line, so changing one separator of an accepted line rejects it |
| `DateTimeValidator.UnparsableFieldRejected` | src/main/DateTimeValidator.java:55-58 | a field that `parseInt` refuses gives `false`, not an error |
| `DateTimeValidator.NothingAfterUtcMarker` | src/main/DateTimeValidator.java:49-51 | nothing may follow a `Z` zone: an accepted line with `Z` at offset 19 has exactly 20 characters |
| `DateTimeGrammar.AcceptedIsWellFormed` | src/main/DateTimeValidator.java:21-51 | soundness: an accepted line is a rendered stamp; its fields parse, with month 1..12, day 1..31, hour 0..23, minute and second 0..59, and no bound on the year |
| `DateTimeGrammar.WellFormedIsAccepted` | src/main/DateTimeValidator.java:21-54 | completeness: every well-formed stamp, signed fields included, renders to an accepted line |
| `DateTimeGrammar.Characterisation` | src/main/DateTimeValidator.java:13-59 | a line is accepted if and only if it renders some well-formed stamp |
| `DateTimeGrammar.FormatAccepted` | src/main/DateTimeValidator.java:21-54 | every timestamp in the zero-padded layout with a four-digit year and in-range fields is accepted |
| `DateTimeGrammar.Day31EveryMonth` | src/main/DateTimeValidator.java:39-40 | day 31 is accepted in every month: there is no calendar check |
| `ValidatorCases.FieldOutOfRange` | src/main/DateTimeValidator.java:37-46 | a two-character field that parses to a value outside its range rejects the line |
| `ValidatorCases.NotANumber` | src/main/DateTimeValidator.java:21-26 | a field with a non-digit, other than a leading sign, does not parse |
| `ValidatorCases.AcceptsCanonical` | src/test/DateTimeValidatorTest.java:213-217 | `2022-01-01T12:30:45Z` is accepted |
| `ValidatorCases.AcceptsLargestOffset` | src/main/DateTimeValidator.java:49 | the offset `+23:59:59` is accepted |
| `ValidatorCases.AcceptsSignedYear` | src/main/DateTimeValidator.java:21 | the year `-999` is accepted, because `parseInt` takes a sign |
| `ValidatorCases.AcceptsSignedMonth` | src/main/DateTimeValidator.java:22 | the month `+1` is accepted |
| `ValidatorCases.AcceptsNegativeZeroHour` | src/main/DateTimeValidator.java:24 | the hour `-0` parses to 0 and is accepted |
| `ValidatorCases.AcceptsFebruary31` | src/main/DateTimeValidator.java:39-40 | `2023-02-31T00:00:00Z` is accepted |
| `ValidatorCases.RejectsByLength` | src/test/DateTimeValidatorTest.java:223-227 | the short test lines and those whose zone part is neither 1 nor 9 characters are rejected |
| `ValidatorCases.RejectsWrongSeparator` | src/test/DateTimeValidatorTest.java:233-237 | `2022/01/01T12:30:45Z` is rejected |
| `ValidatorCases.RejectsMonth13` | src/test/DateTimeValidatorTest.java:243-247 | `2022-13-41T25:30:45Z` is rejected |
| `ValidatorCases.RejectsUnparsableYear` | src/test/DateTimeValidatorTest.java:253-257 | `2X22-X1-X1T12:3X:45ZZ` is rejected because its year does not parse |
| `ValidatorCases.RejectsUnknownZone` | src/test/DateTimeValidatorTest.java:263-267 | `2022-01-01T12:30:45X` is rejected |
| `ValidatorCases.RejectsOffsetHour24` | src/main/DateTimeValidator.java:49 | the offset `+24:00:00` is rejected |
| `ValidatorCases.RejectsSpaceForT` | src/test/DateTimeValidatorTest.java:131 | a space in place of `T` is rejected |
| `ValidatorCases.RejectsMonth0` | src/test/DateTimeValidatorTest.java:132 | month 0 is rejected |
| `ValidatorCases.RejectsDay32` | src/test/DateTimeValidatorTest.java:133 | day 32 is rejected |
| `ValidatorCases.RejectsHour24` | src/test/DateTimeValidatorTest.java:135 | hour 24 is rejected |
| `ValidatorCases.RejectsFilterTestLengths` | src/test/DateTimeValidatorTest.java:134-140 | the filtering test's lines with no date, a short offset, or text after `Z` are rejected |
| `ValidatorCases.AcceptsNoonLine` | src/test/DateTimeValidatorTest.java:94-95 | `2022-01-01T12:00:00Z` is accepted |
| `ValidatorCases.AcceptsAfternoonLine` | src/test/DateTimeValidatorTest.java:96 | `2022-02-01T15:30:00Z` is accepted |
| `FileProcessor.ValidSet` | src/main/DateTimeValidator.java:64-74 | the set the `HashSet` holds after the read loop, the distinct accepted lines read; `CollectValid` is proved to compute it and `ValidSetCount` gives its size |
| `FileProcessor.CollectValid` | src/main/DateTimeValidator.java:64-74 | after the read loop, the set holds exactly the valid lines of the input: every member is valid and was read, and every valid line read is a member |
| `FileProcessor.ValidSetAppend` | src/main/DateTimeValidator.java:70-73 | reading one more line adds it when it is valid; an invalid line contributes nothing |
| `FileProcessor.FilterValid` | src/main/DateTimeValidator.java:70 | the accepted lines are exactly the input lines that the validator accepts |
| `FileProcessor.Dedup` | src/main/DateTimeValidator.java:72 | deduplicating keeps each element once, with no repeats and nothing added or lost |
| `FileProcessor.ValidSetCount` | src/main/DateTimeValidator.java:64-74 | the output holds as many lines as there are distinct valid input lines, and no more lines than were read |
| `FileProcessor.RepeatKeptOnce` | src/main/DateTimeValidator.java:72 | a valid line read twice and another valid line give exactly those two lines |
| `FileProcessor.RepeatedLineCountedOnce` | src/test/DateTimeValidatorTest.java:86-116 | two distinct valid lines, the first read twice, give two output lines |
| `FileProcessor.SameLinesSameOutput` | src/main/DateTimeValidator.java:64-74 | only the set of lines read matters: order and repeats do not change the output |
| `FileProcessor.ReprocessOutput` | src/main/DateTimeValidator.java:64-74 | idempotence: reading the output back in, in any order, gives the same set |
| `FileProcessor.UnreadableSourceGivesNothing` | src/main/DateTimeValidator.java:75-77 | a source that cannot be opened gives no lines, so the output set is empty |

## Left out

- `main` (src/main/DateTimeValidator.java:91-106): argument-count check and usage message; command-line plumbing.
- Opening, reading and writing files, `newLine`, and the `System.err` diagnostics (src/main/DateTimeValidator.java:67, 75-88): I/O. The input is the sequence of lines read. It is empty when the source cannot be opened, and it stops before a read error. The lines already accepted stay in the set, as in the Java code.
- The write loop over the `HashSet` (src/main/DateTimeValidator.java:80-85): its order is implementation-defined. The output is modelled as a set, so the ordered assertions at src/test/DateTimeValidatorTest.java:109-110 are not modelled.
- The `null` check (src/main/DateTimeValidator.java:15): a Dafny string cannot be null.
- JavaInt.ParseInt: takes only the ASCII digits '0'..'9'. `Integer.parseInt` also takes other Unicode decimal digits (through `Character.digit`), so a field written in such digits is accepted by the Java code and rejected by the model.
- Java strings count UTF-16 code units; a Dafny `char` is a Unicode scalar value. A character outside the Basic Multilingual Plane counts as two in `length()` and `substring` but as one here.
- The regular-expression engine behind `String.matches`: each pattern is a fixed sequence of character classes, so a full match is a per-character check.
- The tests that expect Windows path separators and OS error text (src/test/DateTimeValidatorTest.java:178, 201): platform-dependent diagnostics.
- The ten-line filtering test (src/test/DateTimeValidatorTest.java:123-159) is covered one line at a time. `ValidatorCases` proves the verdict on each line, and `FileProcessor.ValidSetAppend` says how each line changes the set. No single lemma evaluates the whole ten-line input.
