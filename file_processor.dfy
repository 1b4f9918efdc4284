/**
  The read-validate-accumulate step of `DateTimeValidator.fileProcessor`: every
  line read from the source is checked, and the accepted ones are added to a
  `HashSet`, so that each distinct accepted line is kept once. The file handles
  are abstracted away: the input is the sequence of lines read, which is empty
  when the source cannot be opened and stops at the line before a read error.
 */
module FileProcessor {
  import opened DateTimeValidator

  /** The distinct accepted lines of the input: what the `HashSet` holds after reading. */
  function ValidSet(lines: seq<string>): (valid: set<string>) {
    set line | line in lines && IsValidDateTime(line)
  }

  /** The read loop: each accepted line is inserted into the set; inserting a present line changes nothing. */
  method CollectValid(lines: seq<string>) returns (validDateTimes: set<string>)
    ensures validDateTimes == ValidSet(lines)
  {
    validDateTimes := {};
    var i := 0;
    while i < |lines|
      invariant 0 <= i <= |lines|
      invariant validDateTimes == ValidSet(lines[..i])
    {
      var line := lines[i];
      assert lines[..i + 1] == lines[..i] + [line];
      ValidSetAppend(lines[..i], line);
      if IsValidDateTime(line) {
        validDateTimes := validDateTimes + {line};
      }
      i := i + 1;
    }
    assert lines[..i] == lines;
  }

  /** Reading one more line adds it to the output when it is valid; an invalid line contributes nothing. */
  lemma ValidSetAppend(lines: seq<string>, line: string)
    ensures ValidSet(lines + [line]) == if IsValidDateTime(line) then ValidSet(lines) + {line} else ValidSet(lines)
  {
    assert forall l :: l in lines + [line] <==> l in lines || l == line;
  }

  /** The lines the validator accepts, repeats included. */
  function FilterValid(lines: seq<string>): (accepted: seq<string>)
    ensures |accepted| <= |lines|
    ensures forall line :: line in accepted <==> line in lines && IsValidDateTime(line)
  {
    if lines == [] then []
    else
      var rest := FilterValid(lines[..|lines| - 1]);
      var last := lines[|lines| - 1];
      assert lines == lines[..|lines| - 1] + [last];
      if IsValidDateTime(last) then rest + [last] else rest
  }

  predicate Distinct(s: seq<string>) {
    forall i, j :: 0 <= i < j < |s| ==> s[i] != s[j]
  }

  /** Each element of `s` once. */
  function Dedup(s: seq<string>): (d: seq<string>)
    ensures Distinct(d) && |d| <= |s|
    ensures forall x :: x in d <==> x in s
  {
    if s == [] then []
    else
      var front := Dedup(s[..|s| - 1]);
      var last := s[|s| - 1];
      assert s == s[..|s| - 1] + [last];
      if last in front then front else front + [last]
  }

  /** A sequence without repeats has as many distinct elements as it has elements. */
  lemma {:induction false} DistinctCardinality(s: seq<string>)
    requires Distinct(s)
    ensures |set x | x in s| == |s|
  {
    if s != [] {
      var front := s[..|s| - 1];
      var last := s[|s| - 1];
      assert Distinct(front);
      DistinctCardinality(front);
      assert (set x | x in s) == (set x | x in front) + {last} by {
        assert s == front + [last];
      }
      assert last !in front;
    }
  }

  /** Deduplication: the output holds as many lines as there are distinct accepted input lines. */
  lemma {:induction false} ValidSetCount(lines: seq<string>)
    ensures |ValidSet(lines)| == |Dedup(FilterValid(lines))|
    ensures |ValidSet(lines)| <= |lines|
  {
    var d := Dedup(FilterValid(lines));
    assert ValidSet(lines) == set x | x in d;
    DistinctCardinality(d);
  }

  /** A valid line read twice and another valid line give those two lines. */
  lemma RepeatKeptOnce(first: string, second: string)
    requires IsValidDateTime(first) && IsValidDateTime(second)
    ensures ValidSet([first, first, second]) == {first, second}
  {
    assert forall line :: line in [first, first, second] <==> line == first || line == second;
  }

  lemma TwoDistinct(first: string, second: string)
    requires first != second
    ensures |{first, second}| == 2
  {
    assert {first, second} == {first} + {second};
  }

  /** Deduplication: two distinct valid lines, the first read twice, give two output lines. */
  lemma RepeatedLineCountedOnce(first: string, second: string)
    requires IsValidDateTime(first) && IsValidDateTime(second) && first != second
    ensures |ValidSet([first, first, second])| == 2
  {
    RepeatKeptOnce(first, second);
    TwoDistinct(first, second);
  }

  /** Only the set of input lines matters: order and repeats do not change the output. */
  lemma SameLinesSameOutput(a: seq<string>, b: seq<string>)
    requires forall line :: line in a <==> line in b
    ensures ValidSet(a) == ValidSet(b)
  {
  }

  /** Idempotence: feeding the output back in, in any order, gives the same set again. */
  lemma {:induction false} ReprocessOutput(lines: seq<string>, written: seq<string>)
    requires forall line :: line in written <==> line in ValidSet(lines)
    ensures ValidSet(written) == ValidSet(lines)
  {
    assert forall line :: line in ValidSet(written) ==> line in ValidSet(lines);
  }

  /** A source that cannot be opened yields no lines and so an empty output. */
  lemma UnreadableSourceGivesNothing()
    ensures ValidSet([]) == {}
  {
  }
}
