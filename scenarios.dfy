/**
 * Worked examples: a header line and what the recogniser captures from it,
 * two timestamps and the format each is read with, and the two ways later
 * lines reach a message (as continuation text, and through the duplicate
 * entry an invalid header leaves behind).
 */
module Scenarios {
  import opened Wrappers
  import opened Text
  import opened Header
  import opened Timestamp
  import opened Parser

  // ---------------------------------------------------------------------
  // The header pattern.

  /** A line that is its groups with one space at each `\s*` gives back those groups. */
  lemma SpacedHeader(line: string, c: Captures)
    requires DateShape(c.date) && TimeShape(c.time) && SenderShape(c.sender) && BodyShape(c.body)
    requires line == Render(c, " ", " ", " ", " ")
    ensures MatchHeader(line) == Some(c)
  {
    assert AllSpace(" ");
    assert Layout(line, c, " ", " ", " ", " ");
    MatchHeaderIff(line, c);
  }

  /** A typical header line gives its date, time, sender and body as the four groups. */
  lemma HeaderExample(line: string)
    requires line == "1/1/24, 10:00 AM - Alice: Hi"
    ensures MatchHeader(line) == Some(Captures("1/1/24", "10:00 AM", "Alice", "Hi"))
  {
    var c := Captures("1/1/24", "10:00 AM", "Alice", "Hi");
    FirstShapes(c);
    FirstRender(c);
    SpacedHeader(line, c);
  }

  /** Each group of the first example has the shape its part of the pattern demands. */
  lemma FirstShapes(c: Captures)
    requires c == Captures("1/1/24", "10:00 AM", "Alice", "Hi")
    ensures DateShape(c.date) && TimeShape(c.time) && SenderShape(c.sender) && BodyShape(c.body)
  {
    assert DateSplit(c.date, 1, 1);
    assert c.time[..5] == "10:00";
  }

  /** The first example is its groups with one space at each `\s*`. */
  lemma FirstRender(c: Captures)
    requires c == Captures("1/1/24", "10:00 AM", "Alice", "Hi")
    ensures Render(c, " ", " ", " ", " ") == "1/1/24, 10:00 AM - Alice: Hi"
  {
  }

  /** Another header, with a sender and a body of several words. */
  lemma SecondHeaderExample(line: string)
    requires line == "1/1/24, 10:05 AM - Bob: Good thanks"
    ensures MatchHeader(line) == Some(Captures("1/1/24", "10:05 AM", "Bob", "Good thanks"))
  {
    var c := Captures("1/1/24", "10:05 AM", "Bob", "Good thanks");
    SecondShapes(c);
    SecondRender(c);
    SpacedHeader(line, c);
  }

  /** Each group of the second example has the shape its part of the pattern demands. */
  lemma SecondShapes(c: Captures)
    requires c == Captures("1/1/24", "10:05 AM", "Bob", "Good thanks")
    ensures DateShape(c.date) && TimeShape(c.time) && SenderShape(c.sender) && BodyShape(c.body)
  {
    assert DateSplit(c.date, 1, 1);
    assert c.time[..5] == "10:05";
  }

  /** The second example is its groups with one space at each `\s*`. */
  lemma SecondRender(c: Captures)
    requires c == Captures("1/1/24", "10:05 AM", "Bob", "Good thanks")
    ensures Render(c, " ", " ", " ", " ") == "1/1/24, 10:05 AM - Bob: Good thanks"
  {
  }

  /** A line that starts with a letter is not a header. */
  lemma PlainExample(line: string)
    requires line == "how are you"
    ensures Classify(line) == Plain(line)
  {
    if MatchHeader(line).Some? {
      HeaderStartsWithDigit(line);
    }
  }

  // ---------------------------------------------------------------------
  // Format negotiation.

  /** The tokens of `1/2/24 3:00 PM` convert under `%d/%m/%y %I:%M %p`: day first, a two-digit year, PM adding 12. */
  lemma ConvertShortYearPm(t: Fields)
    requires t == Fields("1", "2", "24", "3", "00", "PM")
    ensures Convert(t, Formats[1]) == Some(Stamp(2024, 2, 1, 15, 0))
  {
    SmallTokenValue("1");
    SmallTokenValue("2");
    SmallTokenValue("24");
    SmallTokenValue("3");
    SmallTokenValue("00");
    assert TokensFit(t, Formats[1]);
    assert ToLower('P') == 'p';
    assert DaysInMonth(2024, 2) == 29;
  }

  /** `1/2/24, 3:00 PM` is the first of February 2024 at 15:00, read with the second format and no other. */
  lemma StampTwelveHour()
    ensures ParseStamp("1/2/24", "3:00 PM") == Some(Stamp(2024, 2, 1, 15, 0))
    ensures FirstSuccess("1/2/24" + " " + "3:00 PM", Formats, 1, Stamp(2024, 2, 1, 15, 0))
  {
    var t := Fields("1", "2", "24", "3", "00", "PM");
    assert JoinFields(t, " ", " ", true) == "1/2/24" + " " + "3:00 PM";
    ConvertShortYearPm(t);
    ParseStampJoin("1/2/24", "3:00 PM", t, " ", 1);
    StrptimeJoin(t, " ", " ", Formats[1]);
    OnlyFormat("1/2/24" + " " + "3:00 PM", 1);
  }

  /** The tokens of `1/2/2024 15:00` convert under `%d/%m/%Y %H:%M`. */
  lemma ConvertLongYear24(t: Fields)
    requires t == Fields("1", "2", "2024", "15", "00", "")
    ensures Convert(t, Formats[2]) == Some(Stamp(2024, 2, 1, 15, 0))
  {
    SmallTokenValue("1");
    SmallTokenValue("2");
    SmallTokenValue("15");
    SmallTokenValue("00");
    assert t.year[..3] == "202" && t.year[..2] == "20" && t.year[..1] == "2" && t.year[..0] == "";
    assert DecimalValue("2") == 2;
    assert DecimalValue("20") == 20;
    assert DecimalValue("202") == 202;
    assert DecimalValue("2024") == 2024;
    assert TokensFit(t, Formats[2]);
    assert DaysInMonth(2024, 2) == 29;
  }

  /** The tokens of `1/1/24 10:MM AM` convert under `%d/%m/%y %I:%M %p`. */
  lemma ConvertMorning(t: Fields, m: string)
    requires t == Fields("1", "1", "24", "10", m, "AM")
    requires |m| == 2 && '0' <= m[0] <= '5' && IsDigit(m[1])
    ensures Convert(t, Formats[1]) == Some(Stamp(2024, 1, 1, 10, 10 * DigitValue(m[0]) + DigitValue(m[1])))
  {
    SmallTokenValue("1");
    SmallTokenValue("24");
    SmallTokenValue("10");
    SmallTokenValue(m);
    assert TokensFit(t, Formats[1]);
    assert ToLower('A') == 'a';
  }

  /** `1/1/24, 10:00 AM` is ten in the morning of the first of January 2024. */
  lemma StampFirst()
    ensures ParseStamp("1/1/24", "10:00 AM") == Some(Stamp(2024, 1, 1, 10, 0))
  {
    var t := Fields("1", "1", "24", "10", "00", "AM");
    assert JoinFields(t, " ", " ", true) == "1/1/24" + " " + "10:00 AM";
    ConvertMorning(t, "00");
    ParseStampJoin("1/1/24", "10:00 AM", t, " ", 1);
  }

  /** `1/1/24, 10:05 AM`: the minutes are read as they are written. */
  lemma StampSecond()
    ensures ParseStamp("1/1/24", "10:05 AM") == Some(Stamp(2024, 1, 1, 10, 5))
  {
    var t := Fields("1", "1", "24", "10", "05", "AM");
    assert JoinFields(t, " ", " ", true) == "1/1/24" + " " + "10:05 AM";
    ConvertMorning(t, "05");
    ParseStampJoin("1/1/24", "10:05 AM", t, " ", 1);
  }

  /** `1/2/2024, 15:00` is the same moment, read with the third format and no other. */
  lemma StampTwentyFourHour()
    ensures ParseStamp("1/2/2024", "15:00") == Some(Stamp(2024, 2, 1, 15, 0))
    ensures FirstSuccess("1/2/2024" + " " + "15:00", Formats, 2, Stamp(2024, 2, 1, 15, 0))
  {
    var t := Fields("1", "2", "2024", "15", "00", "");
    assert JoinFields(t, " ", "", false) == "1/2/2024" + " " + "15:00";
    ConvertLongYear24(t);
    ParseStampJoin("1/2/2024", "15:00", t, "", 2);
    StrptimeJoin(t, " ", "", Formats[2]);
    OnlyFormat("1/2/2024" + " " + "15:00", 2);
  }

  // ---------------------------------------------------------------------
  // The loop, on classified lines.

  /** A header, then two lines that do not match: both are added to its text, each after a space. */
  lemma ContinuationExample(r: Record)
    ensures Output(RunFrom(Start, [Opens(r), Plain("how are"), Plain("you")]))
         == [r.(text := r.text + " how are you")]
  {
    var last := [Plain("you")];
    var rest := [Plain("how are")] + last;
    var ks := [Opens(r)] + rest;
    assert ks == [Opens(r), Plain("how are"), Plain("you")];
    assert ks[1..] == rest && rest[1..] == last && last[1..] == [];
    assert Gather(rest) == " how are" + (" you" + "");
    assert Invalids(rest) == 0 && Expected(rest) == [];
    assert " how are" + (" you" + "") == " how are you";
    assert Repeat(Extend(r, rest), 1) == [Extend(r, rest)];
    assert Expected(ks) == [Extend(r, rest)] + [];
    RunIsExpected(ks);
  }

  /**
   * A header, a header whose date does not parse, and a plain line: the
   * list holds the first message twice, and the line added after the
   * invalid header shows in both entries.
   */
  lemma InvalidHeaderExample(r: Record)
    ensures Output(RunFrom(Start, [Opens(r), Invalid, Plain("x")]))
         == [r.(text := r.text + " x"), r.(text := r.text + " x")]
  {
    var last := [Plain("x")];
    var rest := [Invalid] + last;
    var ks := [Opens(r)] + rest;
    assert ks == [Opens(r), Invalid, Plain("x")];
    assert ks[1..] == rest && rest[1..] == last && last[1..] == [];
    assert Gather(rest) == " x" + "";
    assert Invalids(rest) == 1 && Expected(rest) == [];
    assert " x" + "" == " x";
    assert Repeat(Extend(r, rest), 2) == [Extend(r, rest), Extend(r, rest)];
    assert Expected(ks) == [Extend(r, rest), Extend(r, rest)] + [];
    RunIsExpected(ks);
  }

  /** The two entries of that list are one object: both are message 0. */
  lemma InvalidHeaderOwners(r: Record)
    ensures Owners([Opens(r), Invalid, Plain("x")]) == [0, 0]
  {
    var last := [Plain("x")];
    var rest := [Invalid] + last;
    var ks := [Opens(r)] + rest;
    assert ks == [Opens(r), Invalid, Plain("x")];
    assert ks[1..] == rest && rest[1..] == last && last[1..] == [];
    assert OwnersFrom(1, last) == [] + [0];
    assert OwnersFrom(1, rest) == [0] + [0];
  }

  /** Two headers with a line between: two messages, the line going to the first. */
  lemma TwoMessagesExample(r: Record, line: string, s: Record)
    ensures Output(RunFrom(Start, [Opens(r), Plain(line), Opens(s)]))
         == [r.(text := r.text + " " + line), s]
  {
    var last := [Opens(s)];
    var rest := [Plain(line)] + last;
    var ks := [Opens(r)] + rest;
    assert ks == [Opens(r), Plain(line), Opens(s)];
    assert ks[1..] == rest && rest[1..] == last && last[1..] == [];
    assert Gather(rest) == " " + line + "";
    assert r.text + (" " + line + "") == r.text + " " + line;
    assert Extend(s, []) == s;
    assert Repeat(s, 1) == [s];
    assert Expected(last) == [s] + [];
    assert Invalids(rest) == 0 && Expected(rest) == [s];
    assert Repeat(Extend(r, rest), 1) == [Extend(r, rest)];
    assert Expected(ks) == [Extend(r, rest)] + [s];
    RunIsExpected(ks);
  }

  // The chat `1/1/24, 10:00 AM - Alice: Hi` / `how are you` /
  // `1/1/24, 10:05 AM - Bob: Good thanks`: its lines classify as below and
  // as in PlainExample, so by TwoMessagesExample the messages are Alice's
  // `Hi how are you` and Bob's `Good thanks`.

  /** The first header opens Alice's message at 10:00 on the first of January 2024. */
  lemma ClassifyFirst(line: string)
    requires line == "1/1/24, 10:00 AM - Alice: Hi"
    ensures Classify(line) == Opens(Record(Stamp(2024, 1, 1, 10, 0), "Alice", "Hi"))
  {
    HeaderExample(line);
    StampFirst();
  }

  /** The second header opens Bob's message five minutes later. */
  lemma ClassifySecond(line: string)
    requires line == "1/1/24, 10:05 AM - Bob: Good thanks"
    ensures Classify(line) == Opens(Record(Stamp(2024, 1, 1, 10, 5), "Bob", "Good thanks"))
  {
    SecondHeaderExample(line);
    StampSecond();
  }
}
