/**
 * The header pattern of an exported chat line (app.py, line 21):
 *
 *   ^(\d{1,2}/\d{1,2}/\d{2,4}),\s*(\d{1,2}:\d{2}(?:\s?[APMapm]{2})?)\s*-\s*([^:]+):\s*(.*)
 *
 * applied with `re.match`, i.e. anchored at the start of the line only.
 * MatchHeader is a hand-written recogniser that returns the four groups the
 * backtracking matcher returns.  Every step is a maximal run because each
 * repeated class is followed by a character outside it; the one place where
 * the matcher gives characters back is `\s*([^:]+):` when everything between
 * `-` and the first `:` is whitespace: the sender is then the last of those
 * whitespace characters.
 */
module Header {
  import opened Wrappers
  import opened Text

  /** The four capture groups: date, time, sender and body. */
  datatype Captures = Captures(date: string, time: string, sender: string, body: string)

  /** The letters of `[APMapm]`. */
  predicate MarkerLetter(c: char) { c == 'A' || c == 'P' || c == 'M' || c == 'a' || c == 'p' || c == 'm' }

  // ---------------------------------------------------------------------
  // The grammar of each group.

  /** `D/M/Y` with 1-2 digits, 1-2 digits and 2-4 digits; `a` and `b` are the first two lengths. */
  predicate DateSplit(d: string, a: nat, b: nat)
  {
    1 <= a <= 2 && 1 <= b <= 2 && a + b + 4 <= |d| <= a + b + 6 &&
    AllDigits(d[..a]) && d[a] == '/' && AllDigits(d[a + 1..a + 1 + b]) &&
    d[a + 1 + b] == '/' && AllDigits(d[a + b + 2..])
  }

  ghost predicate DateShape(d: string) { exists a: nat, b: nat :: DateSplit(d, a, b) }

  /** `H:MM` or `HH:MM`. */
  predicate ClockShape(t: string)
  {
    (|t| == 4 && IsDigit(t[0]) && t[1] == ':' && IsDigit(t[2]) && IsDigit(t[3])) ||
    (|t| == 5 && IsDigit(t[0]) && IsDigit(t[1]) && t[2] == ':' && IsDigit(t[3]) && IsDigit(t[4]))
  }

  /** A clock, then optionally at most one whitespace character and two marker letters. */
  predicate TimeShape(t: string)
  {
    ClockShape(t) ||
    (|t| >= 2 && ClockShape(t[..|t| - 2]) && MarkerLetter(t[|t| - 2]) && MarkerLetter(t[|t| - 1])) ||
    (|t| >= 3 && ClockShape(t[..|t| - 3]) && IsSpace(t[|t| - 3]) &&
     MarkerLetter(t[|t| - 2]) && MarkerLetter(t[|t| - 1]))
  }

  /**
   * Non-empty, no `:`, and it starts with a non-whitespace character unless
   * it is the single whitespace character the matcher gives back.
   */
  predicate SenderShape(s: string) { |s| >= 1 && ':' !in s && (!IsSpace(s[0]) || |s| == 1) }

  /** The body is what is left after the whitespace that follows the `:`. */
  predicate BodyShape(b: string) { b == [] || !IsSpace(b[0]) }

  /** What follows the time: w2 `-` w3 sender `:` w4 body. */
  function SenderTail(sender: string, body: string, w2: string, w3: string, w4: string): string
  {
    w2 + ("-" + (w3 + (sender + (":" + (w4 + body)))))
  }

  /** date `,` w1 time w2 `-` w3 sender `:` w4 body. */
  function Render(c: Captures, w1: string, w2: string, w3: string, w4: string): string
  {
    c.date + ("," + (w1 + (c.time + SenderTail(c.sender, c.body, w2, w3, w4))))
  }

  predicate Layout(line: string, c: Captures, w1: string, w2: string, w3: string, w4: string)
  {
    AllSpace(w1) && AllSpace(w2) && AllSpace(w3) && AllSpace(w4) && line == Render(c, w1, w2, w3, w4)
  }

  /** The line fits the header grammar with these captures. */
  ghost predicate FitsHeader(line: string, c: Captures)
  {
    DateShape(c.date) && TimeShape(c.time) && SenderShape(c.sender) && BodyShape(c.body) &&
    exists w1, w2, w3, w4 :: Layout(line, c, w1, w2, w3, w4)
  }

  // ---------------------------------------------------------------------
  // The recogniser.

  /**
   * Positions in a header line: the `,` after the date, the start and end of
   * the time, the `-`, the start of the sender, the `:` after it and the
   * start of the body.
   */
  datatype Marks = Marks(comma: nat, time: nat, timeEnd: nat, dash: nat, from: nat, colon: nat, body: nat)

  /** The positions are in order and each stretch between them has its shape. */
  ghost predicate MarksOk(line: string, m: Marks)
  {
    m.comma < m.time < m.timeEnd <= m.dash < m.from < m.colon < m.body <= |line| &&
    DateShape(line[..m.comma]) && line[m.comma] == ',' &&
    AllSpace(line[m.comma + 1..m.time]) && TimeShape(line[m.time..m.timeEnd]) &&
    AllSpace(line[m.timeEnd..m.dash]) && line[m.dash] == '-' &&
    AllSpace(line[m.dash + 1..m.from]) && SenderShape(line[m.from..m.colon]) &&
    line[m.colon] == ':' && AllSpace(line[m.colon + 1..m.body]) && BodyShape(line[m.body..])
  }

  /** The capture groups the positions delimit. */
  function Groups(line: string, m: Marks): Captures
    requires m.comma <= m.time <= m.timeEnd <= m.from <= m.colon <= m.body <= |line|
  {
    Captures(line[..m.comma], line[m.time..m.timeEnd], line[m.from..m.colon], line[m.body..])
  }

  /**
   * Position of the `,` that ends a `\d{1,2}/\d{1,2}/\d{2,4}` date at the
   * start of `line`, or 0 when there is no such date.
   */
  function DateEnd(line: string): (n: nat)
    ensures n > 0 ==> n < |line|
  {
    var a := DigitsEnd(line, 0);
    if !(1 <= a <= 2 && a < |line| && line[a] == '/') then 0 else
    var b := DigitsEnd(line, a + 1);
    if !(1 <= b - a - 1 <= 2 && b < |line| && line[b] == '/') then 0 else
    var y := DigitsEnd(line, b + 1);
    if !(2 <= y - b - 1 <= 4 && y < |line| && line[y] == ',') then 0 else y
  }

  /**
   * End of the time `\d{1,2}:\d{2}(?:\s?[APMapm]{2})?` that starts at `p`, or
   * `p` when there is none.  The suffix is taken whenever it is there: when
   * the rest of the pattern fails after it, it fails without it too, since
   * `-` can follow neither a letter nor a lone whitespace character before one.
   */
  function TimeEnd(line: string, p: nat): (e: nat)
    requires p <= |line|
    ensures p <= e <= |line|
  {
    var h := DigitsEnd(line, p);
    if !(1 <= h - p <= 2 && h + 3 <= |line| && line[h] == ':' && IsDigit(line[h + 1]) && IsDigit(line[h + 2])) then p
    else
      var m := h + 3;
      if m + 3 <= |line| && IsSpace(line[m]) && MarkerLetter(line[m + 1]) && MarkerLetter(line[m + 2]) then m + 3
      else if m + 2 <= |line| && MarkerLetter(line[m]) && MarkerLetter(line[m + 1]) then m + 2
      else m
  }

  /** Where the header pattern's pieces lie in `line`, when it matches. */
  function Scan(line: string): (r: Option<Marks>)
    ensures r.Some? ==> r.value.comma < r.value.time < r.value.timeEnd <= r.value.dash < r.value.from < r.value.colon < r.value.body <= |line|
  {
    var n := DateEnd(line);
    if n == 0 then None else
    var p := SpacesEnd(line, n + 1);
    var e := TimeEnd(line, p);
    if e == p then None else
    var i := SpacesEnd(line, e);
    if !(i < |line| && line[i] == '-') then None else
    var q := FindFrom(line, i + 1, ':');
    if !(i + 1 < q < |line|) then None else
    var w := SpacesEnd(line, i + 1);
    // all whitespace up to the `:`: the matcher gives the last one back
    var f := if w < q then w else q - 1;
    Some(Marks(n, p, e, i, f, q, SpacesEnd(line, q + 1)))
  }

  /** `re.match` of the header pattern: the four groups, or None. */
  function MatchHeader(line: string): Option<Captures>
  {
    var r := Scan(line);
    if r.None? then None else Some(Groups(line, r.value))
  }

  // ---------------------------------------------------------------------
  // The stages of the scan find exactly the stretches of the grammar.

  lemma DateEndSound(line: string)
    requires DateEnd(line) > 0
    ensures DateShape(line[..DateEnd(line)]) && line[DateEnd(line)] == ','
  {
    var a := DigitsEnd(line, 0);
    var b := DigitsEnd(line, a + 1);
    var y := DigitsEnd(line, b + 1);
    DigitsEndMaximal(line, 0);
    DigitsEndMaximal(line, a + 1);
    DigitsEndMaximal(line, b + 1);
    var d := line[..y];
    assert d[..a] == line[0..a];
    assert d[a + 1..b] == line[a + 1..b];
    assert d[b + 1..] == line[b + 1..y];
    assert DateSplit(d, a, b - a - 1);
  }

  lemma DateEndIs(line: string, n: nat)
    requires n < |line| && DateShape(line[..n]) && line[n] == ','
    ensures DateEnd(line) == n
  {
    var d := line[..n];
    var a: nat, b: nat :| DateSplit(d, a, b);
    assert d[..a] == line[0..a];
    assert d[a + 1..a + 1 + b] == line[a + 1..a + 1 + b];
    assert d[a + b + 2..] == line[a + b + 2..n];
    DigitsEndIs(line, 0, a);
    DigitsEndIs(line, a + 1, a + 1 + b);
    DigitsEndIs(line, a + b + 2, n);
  }

  lemma TimeEndSound(line: string, p: nat)
    requires p <= |line| && TimeEnd(line, p) > p
    ensures TimeShape(line[p..TimeEnd(line, p)])
  {
    var h := DigitsEnd(line, p);
    DigitsEndMaximal(line, p);
    assert line[p..h][0] == line[p];
    assert h == p + 2 ==> line[p..h][1] == line[p + 1];
    var e := TimeEnd(line, p);
    var t := line[p..e];
    assert t[..h + 3 - p] == line[p..h + 3];
  }

  /** The scanner finds the hour and minutes of a clock at `p`. */
  lemma ClockAt(line: string, p: nat, k: nat)
    requires p + k <= |line| && ClockShape(line[p..p + k])
    ensures var h := DigitsEnd(line, p);
      1 <= h - p <= 2 && h + 3 == p + k && line[h] == ':' && IsDigit(line[h + 1]) && IsDigit(line[h + 2])
  {
    var hl := if line[p + 1] == ':' then 1 else 2;
    assert line[p..p + k][1] == line[p + 1];
    assert AllDigits(line[p..p + hl]);
    DigitsEndIs(line, p, p + hl);
  }

  /** A time followed by whitespace and the `-` is the time the scanner finds. */
  lemma TimeEndIs(line: string, p: nat, e: nat, i: nat)
    requires p <= e <= i < |line| && TimeShape(line[p..e])
    requires AllSpace(line[e..i]) && line[i] == '-'
    ensures TimeEnd(line, p) == e
  {
    var t := line[p..e];
    var k := if ClockShape(t) then |t| else if IsSpace(t[|t| - 3]) then |t| - 3 else |t| - 2;
    assert t[..k] == line[p..p + k];
    ClockAt(line, p, k);
    if e < i {
      assert line[e..i][0] == line[e];
      if e + 1 < i { assert line[e..i][1] == line[e + 1]; }
    }
  }

  /** What the scan computes at each stage, as a predicate on the positions. */
  predicate Stages(line: string, m: Marks)
  {
    0 < DateEnd(line) == m.comma && SpacesEnd(line, m.comma + 1) == m.time &&
    m.time < TimeEnd(line, m.time) == m.timeEnd && SpacesEnd(line, m.timeEnd) == m.dash < |line| &&
    line[m.dash] == '-' && m.dash + 1 < FindFrom(line, m.dash + 1, ':') == m.colon < |line| &&
    (var w := SpacesEnd(line, m.dash + 1); m.from == if w < m.colon then w else m.colon - 1) &&
    SpacesEnd(line, m.colon + 1) == m.body
  }

  lemma ScanStages(line: string)
    requires Scan(line).Some?
    ensures Stages(line, Scan(line).value)
  {
  }

  lemma StagesScan(line: string, m: Marks)
    requires Stages(line, m)
    ensures Scan(line) == Some(m)
  {
  }

  lemma StagesSound(line: string, m: Marks)
    requires Stages(line, m)
    ensures MarksOk(line, m)
  {
    DateEndSound(line);
    StagesTime(line, m);
    SpacesEndMaximal(line, m.timeEnd);
    StagesSender(line, m);
    StagesBody(line, m);
  }

  lemma StagesTime(line: string, m: Marks)
    requires Stages(line, m)
    ensures AllSpace(line[m.comma + 1..m.time]) && TimeShape(line[m.time..m.timeEnd])
  {
    SpacesEndMaximal(line, m.comma + 1);
    TimeEndSound(line, m.time);
  }

  lemma StagesSender(line: string, m: Marks)
    requires Stages(line, m)
    ensures m.dash < m.from < m.colon
    ensures AllSpace(line[m.dash + 1..m.from]) && SenderShape(line[m.from..m.colon]) && line[m.colon] == ':'
  {
    FindFromFirst(line, m.dash + 1, ':');
    SpacesEndMaximal(line, m.dash + 1);
    SpacePrefix(line, m.dash + 1, m.from, SpacesEnd(line, m.dash + 1));
    NotInSuffix(line, ':', m.dash + 1, m.from, m.colon);
    assert line[m.from..m.colon][0] == line[m.from];
  }

  lemma StagesBody(line: string, m: Marks)
    requires Stages(line, m)
    ensures AllSpace(line[m.colon + 1..m.body]) && BodyShape(line[m.body..])
  {
    SpacesEndMaximal(line, m.colon + 1);
  }

  lemma StagesComplete(line: string, m: Marks)
    requires MarksOk(line, m)
    ensures Stages(line, m)
  {
    DateEndIs(line, m.comma);
    CompleteTime(line, m);
    CompleteSender(line, m);
    CompleteBody(line, m);
  }

  lemma CompleteBody(line: string, m: Marks)
    requires MarksOk(line, m)
    ensures SpacesEnd(line, m.colon + 1) == m.body
  {
    assert m.body < |line| ==> line[m.body..][0] == line[m.body];
    SpacesEndIs(line, m.colon + 1, m.body);
  }

  lemma CompleteTime(line: string, m: Marks)
    requires MarksOk(line, m)
    ensures SpacesEnd(line, m.comma + 1) == m.time && TimeEnd(line, m.time) == m.timeEnd
    ensures SpacesEnd(line, m.timeEnd) == m.dash
  {
    assert line[m.time..m.timeEnd][0] == line[m.time];
    SpacesEndIs(line, m.comma + 1, m.time);
    TimeEndIs(line, m.time, m.timeEnd, m.dash);
    SpacesEndIs(line, m.timeEnd, m.dash);
  }

  lemma CompleteSender(line: string, m: Marks)
    requires MarksOk(line, m)
    ensures FindFrom(line, m.dash + 1, ':') == m.colon
    ensures var w := SpacesEnd(line, m.dash + 1); m.from == if w < m.colon then w else m.colon - 1
  {
    CompleteColon(line, m);
    var sender := line[m.from..m.colon];
    assert sender[0] == line[m.from];
    if IsSpace(line[m.from]) {
      assert line[m.dash + 1..m.colon] == line[m.dash + 1..m.from] + [line[m.from]];
      SpacesEndIs(line, m.dash + 1, m.colon);
      assert m.from == m.colon - 1;
    } else {
      SpacesEndIs(line, m.dash + 1, m.from);
      assert m.from < m.colon;
    }
  }

  lemma CompleteColon(line: string, m: Marks)
    requires MarksOk(line, m)
    ensures FindFrom(line, m.dash + 1, ':') == m.colon
  {
    assert line[m.dash + 1..m.colon] == line[m.dash + 1..m.from] + line[m.from..m.colon];
    FindFromIs(line, m.dash + 1, ':', m.colon);
  }

  /** The scan finds exactly the positions at which the grammar's stretches lie. */
  lemma ScanIff(line: string, m: Marks)
    ensures Scan(line) == Some(m) <==> MarksOk(line, m)
  {
    if Scan(line) == Some(m) {
      ScanStages(line);
      StagesSound(line, m);
    }
    if MarksOk(line, m) {
      StagesComplete(line, m);
      StagesScan(line, m);
    }
  }

  // ---------------------------------------------------------------------
  // The positions and the grammar describe the same lines.

  /** The positions of a line laid out with these captures and whitespace. */
  function MarksOf(c: Captures, w1: string, w2: string, w3: string, w4: string): (m: Marks)
    ensures m.comma <= m.time <= m.timeEnd <= m.dash < m.from <= m.colon < m.body
  {
    var time := |c.date| + 1 + |w1|;
    var dash := time + |c.time| + |w2|;
    var from := dash + 1 + |w3|;
    var colon := from + |c.sender|;
    Marks(|c.date|, time, time + |c.time|, dash, from, colon, colon + 1 + |w4|)
  }

  /** Where the pieces of the sender tail lie when it starts at `m.timeEnd`. */
  lemma PeelTail(line: string, m: Marks, sender: string, body: string, w2: string, w3: string, w4: string)
    requires m.timeEnd <= |line| && line[m.timeEnd..] == SenderTail(sender, body, w2, w3, w4)
    requires m.dash == m.timeEnd + |w2| && m.from == m.dash + 1 + |w3|
    requires m.colon == m.from + |sender| && m.body == m.colon + 1 + |w4|
    ensures m.body <= |line| &&
      line[m.timeEnd..m.dash] == w2 && line[m.dash] == '-' && line[m.dash + 1..m.from] == w3 &&
      line[m.from..m.colon] == sender && line[m.colon] == ':' &&
      line[m.colon + 1..m.body] == w4 && line[m.body..] == body
  {
    Peel(line, m.timeEnd, w2, "-" + (w3 + (sender + (":" + (w4 + body)))));
    Peel(line, m.dash, "-", w3 + (sender + (":" + (w4 + body))));
    Peel(line, m.dash + 1, w3, sender + (":" + (w4 + body)));
    assert line[m.dash] == line[m.dash..m.dash + 1][0];
    PeelSender(line, m, sender, body, w4);
  }

  lemma PeelSender(line: string, m: Marks, sender: string, body: string, w4: string)
    requires m.from <= |line| && line[m.from..] == sender + (":" + (w4 + body))
    requires m.colon == m.from + |sender| && m.body == m.colon + 1 + |w4|
    ensures m.body <= |line| && line[m.from..m.colon] == sender && line[m.colon] == ':' &&
      line[m.colon + 1..m.body] == w4 && line[m.body..] == body
  {
    Peel(line, m.from, sender, ":" + (w4 + body));
    Peel(line, m.colon, ":", w4 + body);
    Peel(line, m.colon + 1, w4, body);
    assert line[m.colon] == line[m.colon..m.colon + 1][0];
  }

  /** Where the date, the first whitespace and the time lie in a line that starts with them. */
  lemma PeelHead(line: string, m: Marks, date: string, w1: string, time: string, tail: string)
    requires line == date + ("," + (w1 + (time + tail)))
    requires m.comma == |date| && m.time == m.comma + 1 + |w1| && m.timeEnd == m.time + |time|
    ensures line[..m.comma] == date && line[m.comma] == ',' && line[m.comma + 1..m.time] == w1 &&
      line[m.time..m.timeEnd] == time && line[m.timeEnd..] == tail
  {
    assert line[0..] == line;
    Peel(line, 0, date, "," + (w1 + (time + tail)));
    Peel(line, m.comma, ",", w1 + (time + tail));
    Peel(line, m.comma + 1, w1, time + tail);
    Peel(line, m.time, time, tail);
    assert line[m.comma] == line[m.comma..m.comma + 1][0];
  }

  lemma MarksOfLayout(line: string, c: Captures, w1: string, w2: string, w3: string, w4: string)
    requires line == Render(c, w1, w2, w3, w4)
    ensures var m := MarksOf(c, w1, w2, w3, w4);
      m.body <= |line| && line[..m.comma] == c.date && line[m.comma] == ',' &&
      line[m.comma + 1..m.time] == w1 && line[m.time..m.timeEnd] == c.time &&
      line[m.timeEnd..m.dash] == w2 && line[m.dash] == '-' && line[m.dash + 1..m.from] == w3 &&
      line[m.from..m.colon] == c.sender && line[m.colon] == ':' &&
      line[m.colon + 1..m.body] == w4 && line[m.body..] == c.body
  {
    var m := MarksOf(c, w1, w2, w3, w4);
    PeelHead(line, m, c.date, w1, c.time, SenderTail(c.sender, c.body, w2, w3, w4));
    PeelTail(line, m, c.sender, c.body, w2, w3, w4);
  }

  lemma SplitAt(s: string, a: nat, b: nat)
    requires a <= b <= |s|
    ensures s[a..] == s[a..b] + s[b..]
  {
  }

  lemma SplitChar(s: string, a: nat)
    requires a < |s|
    ensures s[a..] == [s[a]] + s[a + 1..]
  {
  }

  /** What follows the time is put back together from its stretches. */
  lemma JoinTail(line: string, m: Marks)
    requires m.timeEnd <= m.dash < m.from <= m.colon < m.body <= |line|
    requires line[m.dash] == '-' && line[m.colon] == ':'
    ensures line[m.timeEnd..] == SenderTail(line[m.from..m.colon], line[m.body..], line[m.timeEnd..m.dash],
                                             line[m.dash + 1..m.from], line[m.colon + 1..m.body])
  {
    SplitChar(line, m.colon);
    SplitAt(line, m.colon + 1, m.body);
    assert line[m.colon..] == ":" + (line[m.colon + 1..m.body] + line[m.body..]);
    SplitAt(line, m.from, m.colon);
    SplitChar(line, m.dash);
    SplitAt(line, m.dash + 1, m.from);
    SplitAt(line, m.timeEnd, m.dash);
  }

  /** The line is put back together from the stretches between the positions. */
  lemma LayoutOfMarks(line: string, m: Marks)
    requires m.comma < m.time <= m.timeEnd <= m.dash < m.from <= m.colon < m.body <= |line|
    requires line[m.comma] == ',' && line[m.dash] == '-' && line[m.colon] == ':'
    ensures line == Render(Groups(line, m), line[m.comma + 1..m.time], line[m.timeEnd..m.dash],
                           line[m.dash + 1..m.from], line[m.colon + 1..m.body])
  {
    JoinTail(line, m);
    SplitAt(line, m.time, m.timeEnd);
    SplitChar(line, m.comma);
    SplitAt(line, m.comma + 1, m.time);
    SplitAt(line, 0, m.comma);
  }

  lemma MarksFit(line: string, m: Marks)
    requires MarksOk(line, m)
    ensures FitsHeader(line, Groups(line, m))
  {
    LayoutOfMarks(line, m);
    assert Layout(line, Groups(line, m), line[m.comma + 1..m.time], line[m.timeEnd..m.dash],
                  line[m.dash + 1..m.from], line[m.colon + 1..m.body]);
  }

  lemma FitMarks(line: string, c: Captures, w1: string, w2: string, w3: string, w4: string)
    requires DateShape(c.date) && TimeShape(c.time) && SenderShape(c.sender) && BodyShape(c.body)
    requires Layout(line, c, w1, w2, w3, w4)
    ensures MarksOk(line, MarksOf(c, w1, w2, w3, w4)) && Groups(line, MarksOf(c, w1, w2, w3, w4)) == c
  {
    MarksOfLayout(line, c, w1, w2, w3, w4);
  }

  // ---------------------------------------------------------------------
  // The recogniser against the grammar.

  /** The recogniser reports exactly the lines that fit the grammar, with their groups. */
  lemma MatchHeaderIff(line: string, c: Captures)
    ensures MatchHeader(line) == Some(c) <==> FitsHeader(line, c)
  {
    if MatchHeader(line) == Some(c) {
      var m := Scan(line).value;
      ScanIff(line, m);
      MarksFit(line, m);
    }
    if FitsHeader(line, c) {
      var w1, w2, w3, w4 :| Layout(line, c, w1, w2, w3, w4);
      var m := MarksOf(c, w1, w2, w3, w4);
      FitMarks(line, c, w1, w2, w3, w4);
      ScanIff(line, m);
    }
  }

  /** A line fits the grammar in at most one way. */
  lemma FitsHeaderUnique(line: string, c: Captures, d: Captures)
    requires FitsHeader(line, c) && FitsHeader(line, d)
    ensures c == d
  {
    MatchHeaderIff(line, c);
    MatchHeaderIff(line, d);
  }

  /** The sender and the text are pieces of the line: a character in either is in the line. */
  lemma CapturesInLine(line: string, c: Captures, x: char)
    requires MatchHeader(line) == Some(c)
    ensures x in c.sender ==> x in line
    ensures x in c.body ==> x in line
  {
    var m := Scan(line).value;
    if x in c.sender {
      var k :| 0 <= k < |c.sender| && c.sender[k] == x;
      assert line[m.from + k] == x;
    }
    if x in c.body {
      var k :| 0 <= k < |c.body| && c.body[k] == x;
      assert line[m.body + k] == x;
    }
  }

  /** A header starts with the first digit of its date: no other line is one. */
  lemma HeaderStartsWithDigit(line: string)
    requires MatchHeader(line).Some?
    ensures |line| > 0 && IsDigit(line[0])
  {
    var c := MatchHeader(line).value;
    MatchHeaderIff(line, c);
    var w1, w2, w3, w4 :| Layout(line, c, w1, w2, w3, w4);
    var a, b :| DateSplit(c.date, a, b);
    assert line[0] == c.date[0];
  }
}
