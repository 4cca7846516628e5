/**
 * Headers that the pattern accepts but no format parses, so that the loop
 * takes its invalid-header path (app.py, lines 40-41): a year of three
 * digits, and a marker written against the minutes.
 */
module Refusals {
  import opened Wrappers
  import opened Text
  import opened Header
  import opened Timestamp

  /**
   * In a header's date and time joined by a space, the split finds the two
   * `/` of the date and then the joining space.
   */
  lemma DateDelimiters(s: string, date: string, time: string, a: nat, b: nat)
    requires DateSplit(date, a, b) && s == date + " " + time
    ensures FindFrom(s, 0, '/') == a && FindFrom(s, a + 1, '/') == a + 1 + b
    ensures SpaceFrom(s, a + b + 2) == |date| && |date| < |s| && IsSpace(s[|date|])
    ensures s[a + b + 2..|date|] == date[a + b + 2..]
  {
    assert s[..|date|] == date;
    assert s[0..a] == date[..a];
    FindFromIs(s, 0, '/', a);
    assert s[a + 1..a + 1 + b] == date[a + 1..a + 1 + b];
    FindFromIs(s, a + 1, '/', a + 1 + b);
    var year := date[a + b + 2..];
    assert s[a + b + 2..|date|] == year;
    assert forall i :: 0 <= i < |year| ==> !IsSpace(year[i]);
    SpaceFromIs(s, a + b + 2, |date|);
  }

  /** Every format reads the year from what follows the date's second `/`. */
  lemma SplitYearOf(s: string, date: string, time: string, a: nat, b: nat, twelveHour: bool)
    requires DateSplit(date, a, b) && s == date + " " + time
    requires Split(s, twelveHour).Some?
    ensures Split(s, twelveHour).value.year == date[a + b + 2..]
  {
    DateDelimiters(s, date, time, a, b);
    var j := SpaceFrom(s, a + b + 2);
    if twelveHour {
      assert Split(s, true).value.year == s[a + b + 2..j];
    } else {
      assert Split(s, false).value.year == s[a + b + 2..j];
    }
  }

  /** When no format parses the joined string, the header's timestamp is refused. */
  lemma NoFormatParses(date: string, time: string)
    requires forall f :: f in Formats ==> Strptime(date + " " + time, f).None?
    ensures ParseStamp(date, time).None?
  {
    if ParseStamp(date, time).Some? {
      ParseStampIff(date, time, ParseStamp(date, time).value);
    }
  }

  /** A three-digit year fits the pattern's 2-4 digits, but neither `%Y` nor `%y`. */
  lemma ThreeDigitYear(date: string, time: string, a: nat, b: nat)
    requires DateSplit(date, a, b) && |date| == a + b + 5
    ensures ParseStamp(date, time).None?
  {
    var s := date + " " + time;
    forall f | f in Formats
      ensures Strptime(s, f).None?
    {
      if Split(s, f.twelveHour).Some? {
        SplitYearOf(s, date, time, a, b, f.twelveHour);
      }
    }
    NoFormatParses(date, time);
  }

  /** Past the joining space there is no whitespace when the time has none. */
  lemma NoSpaceAfter(s: string, date: string, time: string, c: nat)
    requires s == date + " " + time && NoSpace(time) && |date| < c < |s|
    ensures SpaceFrom(s, c + 1) == |s|
  {
    var tail := s[c + 1..];
    assert tail == time[c - |date|..];
    assert forall i :: 0 <= i < |tail| ==> !IsSpace(tail[i]);
    SpaceFromIs(s, c + 1, |s|);
  }

  /** With `%p`: no whitespace after the minute. */
  lemma GluedTwelveHour(s: string, date: string, time: string, a: nat, b: nat)
    requires DateSplit(date, a, b) && s == date + " " + time && NoSpace(time)
    ensures Split(s, true).None?
  {
    DateDelimiters(s, date, time, a, b);
    var i1 := FindFrom(s, 0, '/');
    var i2 := FindFrom(s, i1 + 1, '/');
    var j := SpaceFrom(s, i2 + 1);
    var k := SpacesEnd(s, j);
    assert j == |date| < k;
    var c := FindFrom(s, k, ':');
    if c < |s| {
      NoSpaceAfter(s, date, time, c);
    }
  }

  /** Without `%p`: the minute is the rest of the string, and ends in what the time ends in. */
  lemma GluedTwentyFourHour(s: string, date: string, time: string, a: nat, b: nat)
    requires DateSplit(date, a, b) && s == date + " " + time && time != []
    requires Split(s, false).Some?
    ensures var m := Split(s, false).value.minute; m != [] ==> m[|m| - 1] == time[|time| - 1]
  {
    DateDelimiters(s, date, time, a, b);
  }

  /** No format parses a time without whitespace that ends in a letter. */
  lemma GluedFormat(s: string, date: string, time: string, a: nat, b: nat, f: Format)
    requires DateSplit(date, a, b) && s == date + " " + time
    requires NoSpace(time) && time != [] && !IsDigit(time[|time| - 1])
    ensures Strptime(s, f).None?
  {
    if f.twelveHour {
      GluedTwelveHour(s, date, time, a, b);
    } else if Split(s, false).Some? {
      GluedTwentyFourHour(s, date, time, a, b);
    }
  }

  /**
   * A time with no whitespace in it that ends in a letter, such as `3:00PM`,
   * fits the pattern but no format: `%p` needs whitespace before it, and
   * `%M` ends in a digit.
   */
  lemma GluedMarker(date: string, time: string, a: nat, b: nat)
    requires DateSplit(date, a, b) && NoSpace(time) && time != [] && !IsDigit(time[|time| - 1])
    ensures ParseStamp(date, time).None?
  {
    forall f | f in Formats
      ensures Strptime(date + " " + time, f).None?
    {
      GluedFormat(date + " " + time, date, time, a, b, f);
    }
    NoFormatParses(date, time);
  }
}
