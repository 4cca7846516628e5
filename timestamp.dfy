/**
 * The timestamp of a message (app.py, lines 32-41): the header's date and
 * time, joined by one space, are given to `datetime.strptime` with each of
 * four formats in turn, and the first that succeeds is kept.
 *
 * `strptime` is modelled the way CPython's `_strptime` works: a format is
 * turned into a regular expression (a space in the format becomes `\s+`,
 * each directive a fixed alternation, the whole matched ignoring case), the
 * match must reach the end of the string, the fields are converted, and the
 * resulting calendar date must exist.  For these four formats every field is
 * delimited by a `/`, a `:` or whitespace, so the string splits into tokens
 * first and each token is checked against its directive's alternation.
 */
module Timestamp {
  import opened Wrappers
  import opened Text

  /** A `datetime` without seconds: every format here stops at the minute. */
  datatype Stamp = Stamp(year: int, month: int, day: int, hour: int, minute: int)

  /** What `datetime.date()` keeps. */
  datatype Date = Date(year: int, month: int, day: int)

  function DateOf(t: Stamp): Date { Date(t.year, t.month, t.day) }

  /** The order of `datetime.date`: by year, then month, then day. */
  predicate DateLe(a: Date, b: Date)
  {
    a.year < b.year || (a.year == b.year && (a.month < b.month || (a.month == b.month && a.day <= b.day)))
  }

  /** Gregorian leap years. */
  predicate IsLeapYear(y: int) { y % 4 == 0 && (y % 100 != 0 || y % 400 == 0) }

  function DaysInMonth(y: int, m: int): (d: int)
    requires 1 <= m <= 12
    ensures 28 <= d <= 31
    ensures d == 29 <==> m == 2 && IsLeapYear(y)
  {
    if m == 2 then (if IsLeapYear(y) then 29 else 28)
    else if m == 4 || m == 6 || m == 9 || m == 11 then 30
    else 31
  }

  /** The values a `datetime` accepts. */
  predicate ValidStamp(t: Stamp)
  {
    1 <= t.year <= 9999 && 1 <= t.month <= 12 && 1 <= t.day <= DaysInMonth(t.year, t.month) &&
    0 <= t.hour <= 23 && 0 <= t.minute <= 59
  }

  // ---------------------------------------------------------------------
  // The formats.

  /**
   * `%d/%m/%Y` or `%d/%m/%y` (`longYear`), then a space, then `%I:%M %p` or
   * `%H:%M` (`twelveHour`).
   */
  datatype Format = Format(longYear: bool, twelveHour: bool)

  /** The formats in the order they are tried. */
  const Formats: seq<Format> := [
    Format(true, true),    // %d/%m/%Y %I:%M %p
    Format(false, true),   // %d/%m/%y %I:%M %p
    Format(true, false),   // %d/%m/%Y %H:%M
    Format(false, false)   // %d/%m/%y %H:%M
  ]

  // ---------------------------------------------------------------------
  // The alternation each directive becomes.

  /** `%d`: `3[01]|[12]\d|0[1-9]|[1-9]| [1-9]`. */
  predicate DayToken(t: string)
  {
    (|t| == 2 && t[0] == '3' && (t[1] == '0' || t[1] == '1')) ||
    (|t| == 2 && (t[0] == '1' || t[0] == '2') && IsDigit(t[1])) ||
    (|t| == 2 && t[0] == '0' && '1' <= t[1] <= '9') ||
    (|t| == 1 && '1' <= t[0] <= '9') ||
    (|t| == 2 && t[0] == ' ' && '1' <= t[1] <= '9')
  }

  /** `%m` and `%I`: `1[0-2]|0[1-9]|[1-9]`. */
  predicate MonthToken(t: string)
  {
    (|t| == 2 && t[0] == '1' && '0' <= t[1] <= '2') ||
    (|t| == 2 && t[0] == '0' && '1' <= t[1] <= '9') ||
    (|t| == 1 && '1' <= t[0] <= '9')
  }

  /** `%H`: `2[0-3]|[0-1]\d|\d`. */
  predicate Hour24Token(t: string)
  {
    (|t| == 2 && t[0] == '2' && '0' <= t[1] <= '3') ||
    (|t| == 2 && (t[0] == '0' || t[0] == '1') && IsDigit(t[1])) ||
    (|t| == 1 && IsDigit(t[0]))
  }

  /** `%M`: `[0-5]\d|\d`. */
  predicate MinuteToken(t: string)
  {
    (|t| == 2 && '0' <= t[0] <= '5' && IsDigit(t[1])) ||
    (|t| == 1 && IsDigit(t[0]))
  }

  /** `%Y` is `\d\d\d\d`, `%y` is `\d\d`. */
  predicate YearToken(t: string, longYear: bool)
  {
    |t| == (if longYear then 4 else 2) && AllDigits(t)
  }

  /** `%p` in the C locale, matched ignoring case: `am` or `pm`. */
  predicate MarkerToken(t: string)
  {
    |t| == 2 && (ToLower(t[0]) == 'a' || ToLower(t[0]) == 'p') && ToLower(t[1]) == 'm'
  }

  /** What `int()` makes of a token: the digits, after an optional leading space. */
  function TokenValue(t: string): nat
  {
    if t != [] && t[0] == ' ' && AllDigits(t[1..]) then DecimalValue(t[1..])
    else if AllDigits(t) then DecimalValue(t)
    else 0
  }

  /** The value of a one- or two-character token of digits, or of a space and a digit. */
  lemma SmallTokenValue(t: string)
    requires (1 <= |t| <= 2 && AllDigits(t)) || (|t| == 2 && t[0] == ' ' && IsDigit(t[1]))
    ensures TokenValue(t) == if |t| == 1 then DigitValue(t[0])
                             else if t[0] == ' ' then DigitValue(t[1])
                             else 10 * DigitValue(t[0]) + DigitValue(t[1])
  {
    if |t| == 1 {
      DecimalOne(t);
    } else if t[0] == ' ' {
      DecimalOne(t[1..]);
    } else {
      DecimalTwo(t);
    }
  }

  function DayValue(t: string): (v: int)
    requires DayToken(t)
    ensures 1 <= v <= 31
  {
    SmallTokenValue(t);
    TokenValue(t)
  }

  function MonthValue(t: string): (v: int)
    requires MonthToken(t)
    ensures 1 <= v <= 12
  {
    SmallTokenValue(t);
    TokenValue(t)
  }

  function Hour24Value(t: string): (v: int)
    requires Hour24Token(t)
    ensures 0 <= v <= 23
  {
    SmallTokenValue(t);
    TokenValue(t)
  }

  function MinuteValue(t: string): (v: int)
    requires MinuteToken(t)
    ensures 0 <= v <= 59
  {
    SmallTokenValue(t);
    TokenValue(t)
  }

  function YearValue(t: string, longYear: bool): (v: int)
    requires YearToken(t, longYear)
    ensures if longYear then 0 <= v <= 9999 else 0 <= v <= 99
  {
    if longYear then
      DecimalBound(t);
      assert Pow10(4) == 10 * Pow10(3) == 100 * Pow10(2) == 10000;
      assert !IsSpace(t[0]);
      TokenValue(t)
    else
      SmallTokenValue(t);
      TokenValue(t)
  }

  // Each alternation accepts exactly the one- and two-digit numerals in a range.

  lemma DigitsValue(t: string)
    requires 1 <= |t| <= 2 && AllDigits(t)
    ensures DecimalValue(t) == if |t| == 1 then DigitValue(t[0]) else 10 * DigitValue(t[0]) + DigitValue(t[1])
  {
    if |t| == 1 { DecimalOne(t); } else { DecimalTwo(t); }
  }

  lemma DayTokenRange(t: string)
    requires 1 <= |t| <= 2 && AllDigits(t)
    ensures DayToken(t) <==> 1 <= DecimalValue(t) <= 31
  {
    DigitsValue(t);
  }

  lemma MonthTokenRange(t: string)
    requires 1 <= |t| <= 2 && AllDigits(t)
    ensures MonthToken(t) <==> 1 <= DecimalValue(t) <= 12
  {
    DigitsValue(t);
  }

  lemma Hour24TokenRange(t: string)
    requires 1 <= |t| <= 2 && AllDigits(t)
    ensures Hour24Token(t) <==> DecimalValue(t) <= 23
  {
    DigitsValue(t);
  }

  lemma MinuteTokenRange(t: string)
    requires 1 <= |t| <= 2 && AllDigits(t)
    ensures MinuteToken(t) <==> DecimalValue(t) <= 59
  {
    DigitsValue(t);
  }

  /** `%y`: 69-99 are 1969-1999, 00-68 are 2000-2068. */
  function ShortYear(v: int): (y: int)
    requires 0 <= v <= 99
    ensures 1969 <= y <= 2068 && y % 100 == v
  {
    if v <= 68 then v + 2000 else v + 1900
  }

  /** `%I` with `%p`: 12 AM is hour 0, and PM adds 12 except to 12. */
  function ClockHour(h: int, pm: bool): (r: int)
    requires 1 <= h <= 12
    ensures 0 <= r <= 23 && (r < 12 <==> !pm) && r % 12 == h % 12
  {
    if !pm then (if h == 12 then 0 else h)
    else if h == 12 then 12 else h + 12
  }

  // ---------------------------------------------------------------------
  // `strptime`.

  /** The tokens of a string, split at the delimiters of a format. */
  datatype Fields = Fields(day: string, month: string, year: string, hour: string, minute: string, marker: string)

  /**
   * Day up to the first `/`, month up to the next `/`, year up to the first
   * whitespace after it, hour from the end of that whitespace up to the next
   * `:`; then with `%p` the minute runs up to the first whitespace and the
   * marker is everything after that whitespace, and without `%p` the minute
   * is the rest.  None when a delimiter is missing.
   */
  function Split(s: string, twelveHour: bool): Option<Fields>
  {
    var i1 := FindFrom(s, 0, '/');
    if i1 == |s| then None else
    var i2 := FindFrom(s, i1 + 1, '/');
    if i2 == |s| then None else
    var j := SpaceFrom(s, i2 + 1);
    if j == |s| then None else
    var k := SpacesEnd(s, j);
    var c := FindFrom(s, k, ':');
    if c == |s| then None else
    if !twelveHour then Some(Fields(s[..i1], s[i1 + 1..i2], s[i2 + 1..j], s[k..c], s[c + 1..], []))
    else
      var j2 := SpaceFrom(s, c + 1);
      if j2 == |s| then None else
      Some(Fields(s[..i1], s[i1 + 1..i2], s[i2 + 1..j], s[k..c], s[c + 1..j2], s[SpacesEnd(s, j2)..]))
  }

  /** What follows the `:`: the minute, and with `%p` whitespace and the marker. */
  function MinuteTail(t: Fields, w2: string, twelveHour: bool): string
  {
    if twelveHour then t.minute + (w2 + t.marker) else t.minute
  }

  /** The tokens put back together with the delimiters between them. */
  function JoinFields(t: Fields, w: string, w2: string, twelveHour: bool): string
  {
    t.day + ("/" + (t.month + ("/" + (t.year + (w + (t.hour + (":" + MinuteTail(t, w2, twelveHour))))))))
  }

  /** Tokens that hold no delimiter where the split looks for one, and whitespace between them. */
  predicate Joinable(t: Fields, w: string, w2: string, twelveHour: bool)
  {
    '/' !in t.day && '/' !in t.month && NoSpace(t.year) && |w| >= 1 && AllSpace(w) &&
    (t.hour == [] || !IsSpace(t.hour[0])) && ':' !in t.hour &&
    if twelveHour then NoSpace(t.minute) && |w2| >= 1 && AllSpace(w2) && (t.marker == [] || !IsSpace(t.marker[0]))
    else t.marker == []
  }

  /** Where the date tokens lie in a joined string. */
  lemma PeelDate(s: string, t: Fields, rest: string, i1: nat, i2: nat, j: nat)
    requires s == t.day + ("/" + (t.month + ("/" + (t.year + rest))))
    requires i1 == |t.day| && i2 == i1 + 1 + |t.month| && j == i2 + 1 + |t.year|
    ensures s[..i1] == t.day && s[i1] == '/' && s[i1 + 1..i2] == t.month && s[i2] == '/'
    ensures s[i2 + 1..j] == t.year && s[j..] == rest
  {
    assert s[0..] == s;
    Peel(s, 0, t.day, "/" + (t.month + ("/" + (t.year + rest))));
    Peel(s, i1, "/", t.month + ("/" + (t.year + rest)));
    assert s[i1] == s[i1..i1 + 1][0];
    PeelMonth(s, i1 + 1, t, rest, i2, j);
  }

  lemma PeelMonth(s: string, k: nat, t: Fields, rest: string, i2: nat, j: nat)
    requires k <= |s| && s[k..] == t.month + ("/" + (t.year + rest))
    requires i2 == k + |t.month| && j == i2 + 1 + |t.year|
    ensures s[k..i2] == t.month && s[i2] == '/' && s[i2 + 1..j] == t.year && s[j..] == rest
  {
    Peel(s, k, t.month, "/" + (t.year + rest));
    Peel(s, i2, "/", t.year + rest);
    Peel(s, i2 + 1, t.year, rest);
    assert s[i2] == s[i2..i2 + 1][0];
  }

  /** Where the time tokens lie when they start at `j`. */
  lemma PeelTime(s: string, j: nat, t: Fields, w: string, w2: string, twelveHour: bool, k: nat, c: nat)
    requires j <= |s| && s[j..] == w + (t.hour + (":" + MinuteTail(t, w2, twelveHour)))
    requires k == j + |w| && c == k + |t.hour|
    ensures c < |s| && s[j..k] == w && s[k..c] == t.hour && s[c] == ':' && s[c + 1..] == MinuteTail(t, w2, twelveHour)
  {
    Peel(s, j, w, t.hour + (":" + MinuteTail(t, w2, twelveHour)));
    Peel(s, k, t.hour, ":" + MinuteTail(t, w2, twelveHour));
    Peel(s, c, ":", MinuteTail(t, w2, twelveHour));
    assert s[c] == s[c..c + 1][0];
  }

  /** Splitting a joined string gives back its tokens. */
  lemma SplitJoin(t: Fields, w: string, w2: string, twelveHour: bool)
    requires Joinable(t, w, w2, twelveHour)
    ensures Split(JoinFields(t, w, w2, twelveHour), twelveHour) == Some(t)
  {
    var s := JoinFields(t, w, w2, twelveHour);
    var i1 := |t.day|;
    var i2 := i1 + 1 + |t.month|;
    var j := i2 + 1 + |t.year|;
    var k := j + |w|;
    var c := k + |t.hour|;
    PeelDate(s, t, w + (t.hour + (":" + MinuteTail(t, w2, twelveHour))), i1, i2, j);
    PeelTime(s, j, t, w, w2, twelveHour, k, c);
    SplitPieces(s, t, w, w2, twelveHour, i1, i2, j, k, c);
  }

  /** The split of a string whose stretches are known. */
  lemma SplitPieces(s: string, t: Fields, w: string, w2: string, twelveHour: bool,
                    i1: nat, i2: nat, j: nat, k: nat, c: nat)
    requires Joinable(t, w, w2, twelveHour)
    requires i1 == |t.day| && i2 == i1 + 1 + |t.month| && j == i2 + 1 + |t.year|
    requires k == j + |w| && c == k + |t.hour| && c < |s|
    requires s[..i1] == t.day && s[i1] == '/' && s[i1 + 1..i2] == t.month && s[i2] == '/'
    requires s[i2 + 1..j] == t.year && s[j..k] == w && s[k..c] == t.hour && s[c] == ':'
    requires s[c + 1..] == MinuteTail(t, w2, twelveHour)
    ensures Split(s, twelveHour) == Some(t)
  {
    ScanDate(s, i1, i2);
    ScanTime(s, i2, j, k, c);
    if twelveHour {
      SplitMinute(s, c, t, w2);
      SplitScans(s, twelveHour, i1, i2, j, k, c);
    } else {
      SplitScans(s, twelveHour, i1, i2, j, k, c);
    }
  }

  lemma ScanDate(s: string, i1: nat, i2: nat)
    requires i1 < i2 < |s| && '/' !in s[..i1] && s[i1] == '/' && '/' !in s[i1 + 1..i2] && s[i2] == '/'
    ensures FindFrom(s, 0, '/') == i1 && FindFrom(s, i1 + 1, '/') == i2
  {
    assert s[0..i1] == s[..i1];
    FindFromIs(s, 0, '/', i1);
    FindFromIs(s, i1 + 1, '/', i2);
  }

  lemma ScanTime(s: string, i2: nat, j: nat, k: nat, c: nat)
    requires i2 < j < k <= c < |s| && NoSpace(s[i2 + 1..j]) && AllSpace(s[j..k])
    requires (k < c ==> !IsSpace(s[k])) && ':' !in s[k..c] && s[c] == ':'
    ensures SpaceFrom(s, i2 + 1) == j && SpacesEnd(s, j) == k && FindFrom(s, k, ':') == c
  {
    assert s[j] == s[j..k][0];
    SpaceFromIs(s, i2 + 1, j);
    SpacesEndIs(s, j, k);
    FindFromIs(s, k, ':', c);
  }

  /** What Split returns once its scans are known. */
  lemma SplitScans(s: string, twelveHour: bool, i1: nat, i2: nat, j: nat, k: nat, c: nat)
    requires i1 < i2 < j <= k <= c < |s|
    requires FindFrom(s, 0, '/') == i1 && FindFrom(s, i1 + 1, '/') == i2
    requires SpaceFrom(s, i2 + 1) == j && SpacesEnd(s, j) == k && FindFrom(s, k, ':') == c
    requires twelveHour ==> SpaceFrom(s, c + 1) < |s|
    ensures Split(s, twelveHour) == Some(
      if twelveHour then
        var j2 := SpaceFrom(s, c + 1);
        Fields(s[..i1], s[i1 + 1..i2], s[i2 + 1..j], s[k..c], s[c + 1..j2], s[SpacesEnd(s, j2)..])
      else Fields(s[..i1], s[i1 + 1..i2], s[i2 + 1..j], s[k..c], s[c + 1..], []))
  {
  }

  /** `strptime` of a joined string converts its tokens. */
  lemma StrptimeJoin(t: Fields, w: string, w2: string, f: Format)
    requires Joinable(t, w, w2, f.twelveHour)
    ensures Strptime(JoinFields(t, w, w2, f.twelveHour), f) == Convert(t, f)
  {
    SplitJoin(t, w, w2, f.twelveHour);
  }

  /** A header date and time that join into tokens one format converts parse to that conversion. */
  lemma ParseStampJoin(date: string, time: string, t: Fields, w2: string, k: nat)
    requires k < |Formats| && Joinable(t, " ", w2, Formats[k].twelveHour)
    requires date + " " + time == JoinFields(t, " ", w2, Formats[k].twelveHour)
    requires Convert(t, Formats[k]).Some?
    ensures ParseStamp(date, time) == Convert(t, Formats[k])
  {
    var s := date + " " + time;
    StrptimeJoin(t, " ", w2, Formats[k]);
    OnlyFormat(s, k);
    FirstParseAt(s, Formats, k);
  }

  lemma SplitMinute(s: string, c: nat, t: Fields, w2: string)
    requires c < |s| && s[c + 1..] == t.minute + (w2 + t.marker)
    requires NoSpace(t.minute) && |w2| >= 1 && AllSpace(w2) && (t.marker == [] || !IsSpace(t.marker[0]))
    ensures var j2 := SpaceFrom(s, c + 1);
      j2 < |s| && s[c + 1..j2] == t.minute && s[SpacesEnd(s, j2)..] == t.marker
  {
    var j2 := c + 1 + |t.minute|;
    Peel(s, c + 1, t.minute, w2 + t.marker);
    Peel(s, j2, w2, t.marker);
    assert s[j2] == w2[0];
    SpaceFromIs(s, c + 1, j2);
    var k2 := j2 + |w2|;
    assert k2 < |s| ==> s[k2] == t.marker[0];
    SpacesEndIs(s, j2, k2);
  }

  /** Every token has the shape its directive demands. */
  predicate TokensFit(t: Fields, f: Format)
  {
    DayToken(t.day) && MonthToken(t.month) && YearToken(t.year, f.longYear) && MinuteToken(t.minute) &&
    if f.twelveHour then MonthToken(t.hour) && MarkerToken(t.marker) else Hour24Token(t.hour)
  }

  /** The conversion of the tokens, with the checks `datetime` makes. */
  function Convert(t: Fields, f: Format): Option<Stamp>
  {
    if !TokensFit(t, f) then None else
    var year := if f.longYear then YearValue(t.year, true) else ShortYear(YearValue(t.year, false));
    var month := MonthValue(t.month);
    var hour := if f.twelveHour then ClockHour(MonthValue(t.hour), ToLower(t.marker[0]) == 'p')
                else Hour24Value(t.hour);
    // year 0 and a day past the end of the month are refused by `datetime`
    if year < 1 || DayValue(t.day) > DaysInMonth(year, month) then None
    else Some(Stamp(year, month, DayValue(t.day), hour, MinuteValue(t.minute)))
  }

  /** `datetime.strptime(s, f)`: the timestamp, or None where it raises ValueError. */
  function Strptime(s: string, f: Format): Option<Stamp>
  {
    var split := Split(s, f.twelveHour);
    if split.None? then None else Convert(split.value, f)
  }

  /** The result of the first format in `fs` that parses `s`. */
  function FirstParse(s: string, fs: seq<Format>): Option<Stamp>
  {
    if fs == [] then None
    else if Strptime(s, fs[0]).Some? then Strptime(s, fs[0])
    else FirstParse(s, fs[1..])
  }

  /** The timestamp of a header with this date and time. */
  function ParseStamp(date: string, time: string): Option<Stamp>
  {
    FirstParse(date + " " + time, Formats)
  }

  /** The loop over the formats, stopping at the first that parses. */
  method Negotiate(date: string, time: string) returns (dt: Option<Stamp>)
    ensures dt == ParseStamp(date, time)
  {
    var s := date + " " + time;
    dt := None;
    var k := 0;
    while k < |Formats|
      invariant 0 <= k <= |Formats|
      invariant FirstParse(s, Formats) == FirstParse(s, Formats[k..])
    {
      var r := Strptime(s, Formats[k]);
      if r.Some? {
        dt := r;
        break;
      }
      k := k + 1;
    }
  }

  // ---------------------------------------------------------------------
  // What the negotiation returns.

  /** `fs[k]` is the first format in `fs` that parses `s`, and gives `x`. */
  predicate FirstSuccess(s: string, fs: seq<Format>, k: int, x: Stamp)
  {
    0 <= k < |fs| && Strptime(s, fs[k]) == Some(x) && forall j :: 0 <= j < k ==> Strptime(s, fs[j]).None?
  }

  /** The first format that parses decides the result. */
  lemma FirstParseIff(s: string, fs: seq<Format>, x: Stamp)
    ensures FirstParse(s, fs) == Some(x) <==> exists k :: FirstSuccess(s, fs, k, x)
  {
    if FirstParse(s, fs) == Some(x) {
      FirstParseFound(s, fs, x);
    }
    if k :| FirstSuccess(s, fs, k, x) {
      FirstParseAt(s, fs, k);
    }
  }

  lemma {:induction false} FirstParseFound(s: string, fs: seq<Format>, x: Stamp)
    requires FirstParse(s, fs) == Some(x)
    ensures exists k :: FirstSuccess(s, fs, k, x)
  {
    if Strptime(s, fs[0]).Some? {
      assert FirstSuccess(s, fs, 0, x);
    } else {
      FirstParseFound(s, fs[1..], x);
      var k :| FirstSuccess(s, fs[1..], k, x);
      assert forall j :: 0 < j < k + 1 ==> fs[j] == fs[1..][j - 1];
      assert FirstSuccess(s, fs, k + 1, x);
    }
  }

  lemma {:induction false} FirstParseAt(s: string, fs: seq<Format>, k: nat)
    requires k < |fs| && Strptime(s, fs[k]).Some?
    requires forall j :: 0 <= j < k ==> Strptime(s, fs[j]).None?
    ensures FirstParse(s, fs) == Strptime(s, fs[k])
  {
    if k > 0 {
      assert forall j :: 0 <= j < k - 1 ==> fs[1..][j] == fs[j + 1];
      FirstParseAt(s, fs[1..], k - 1);
    }
  }

  /** The year token is the same for every format. */
  lemma SplitYear(s: string, a: bool, b: bool)
    requires Split(s, a).Some? && Split(s, b).Some?
    ensures Split(s, a).value.year == Split(s, b).value.year
  {
  }

  /**
   * At most one format parses any string: the year has four digits or two,
   * and after the minute there is whitespace with `%p` and nothing without.
   */
  lemma FormatsExclusive(s: string, f: Format, g: Format)
    requires Strptime(s, f).Some? && Strptime(s, g).Some?
    ensures f == g
  {
    SplitYear(s, f.twelveHour, g.twelveHour);
  }

  /** So the order in which the formats are tried does not change the result. */
  lemma ParseStampIff(date: string, time: string, x: Stamp)
    ensures ParseStamp(date, time) == Some(x) <==> exists f :: f in Formats && Strptime(date + " " + time, f) == Some(x)
  {
    var s := date + " " + time;
    FirstParseIff(s, Formats, x);
    if f :| f in Formats && Strptime(s, f) == Some(x) {
      var k :| 0 <= k < |Formats| && Formats[k] == f;
      OnlyFormat(s, k);
      assert FirstSuccess(s, Formats, k, x);
    }
    if ParseStamp(date, time) == Some(x) {
      var k :| FirstSuccess(s, Formats, k, x);
      assert Formats[k] in Formats;
    }
  }

  lemma OnlyFormat(s: string, k: nat)
    requires k < |Formats| && Strptime(s, Formats[k]).Some?
    ensures forall j :: 0 <= j < |Formats| && j != k ==> Strptime(s, Formats[j]).None?
  {
    forall j | 0 <= j < |Formats| && j != k
      ensures Strptime(s, Formats[j]).None?
    {
      if Strptime(s, Formats[j]).Some? {
        FormatsExclusive(s, Formats[j], Formats[k]);
      }
    }
  }

  /** Whatever is parsed is a date and time `datetime` accepts. */
  lemma StrptimeValid(s: string, f: Format)
    requires Strptime(s, f).Some?
    ensures ValidStamp(Strptime(s, f).value)
  {
  }
}
