# WhatsApp chat summariser: the transcript parser, in Dafny

The program reads an exported WhatsApp chat and turns its lines into
messages. Each message has a timestamp, a sender and a text. It keeps the
messages dated between two chosen days and sends the first 300 of them to a
language model as one block of `sender: text` lines. This project models
everything in that pipeline that is computed rather than displayed or sent:

- **`header.dfy`** models the header pattern of `app.py:21`. `MatchHeader` is a hand-written recogniser. It returns the four groups Python's backtracking matcher returns: date, time, sender and body. It is proved equal to a declarative grammar: `FitsHeader` states how a line is made of its groups and the whitespace between them.
- **`timestamp.dfy`** models `datetime.strptime` for the four formats of `app.py:34`, as CPython's `_strptime` works:
  - the format becomes a regular expression, and each directive becomes a fixed alternation;
  - a space in the format matches one or more whitespace characters;
  - `%p` is matched ignoring case;
  - the whole string must be consumed;
  - the fields are converted, and the calendar date must exist.

  `Negotiate` is the loop of `app.py:33-39` that tries the formats in order.
- **`parser.dfy`** models the parse loop of `app.py:22-49` twice:
  - As a fold over classified lines (`Classify`, `Step`, `RunFrom`, `Parse`). It is proved equal to a reference description, `Expected`, that reads the chat one valid header at a time.
  - As the imperative loop itself (`ParseLines`, `Collect`, `Feed`, `Finish`). Messages are objects of class `Message`; the list holds references to them, and a continuation line updates the open message's `text` field in place.

  The loop's `ensures` ties every entry's value to `Parse`. It also states which entries are the same object.
- **`report.dfy`** models the inclusive date-range filter of `app.py:58-64` and the text block of `app.py:76-79`.
- **`refusals.dfy`** covers two families of header lines that the pattern accepts but that no format parses.
- **`scenarios.dfy`** holds worked examples.

## How the code behaves on a header whose date does not parse

A line can match the pattern while its date and time fit none of the four formats. Examples are `1/2/024, 10:00` (a three-digit year) and `1/2/24, 3:00PM` (no space before `PM`). The code does not treat such a line as a continuation line. Instead:

1. It appends the open message to the list (`app.py:28-29`), before the date is checked.
2. It skips the line (`app.py:40-41`), so the line's body is lost.
3. The open message stays open. It is appended again at the next matching line or at the end.

Both entries are the same dictionary. Text that later lines add to it (`app.py:46`) therefore shows in both. The model follows the code:

- `Step` keeps a count of such pending entries.
- `Feed` appends the same `Message` reference.
- `Parser.Collect` and `Parser.ParseLines` state that two entries are the same object exactly when their `Owners` numbers agree.
- `Scenarios.InvalidHeaderExample` and `Scenarios.InvalidHeaderOwners` show the duplicate.

A plain description of the program might suggest that such a line is added to the open message as text. The code does not do that, and this model does not either.

The four formats exclude one another. A parsed year has either four digits or two, and a `%p` marker either follows the minutes after whitespace or is absent. So the order in which the formats are tried never changes the result (`Timestamp.FormatsExclusive`, `Timestamp.ParseStampIff`).

## Model

| member | source | states |
|---|---|---|
| Header.MatchHeaderIff | app.py:21 | the recogniser returns groups `c` for a line exactly when the line fits the pattern's grammar with those groups, in both directions |
| Header.FitsHeaderUnique | app.py:21 | a line fits the grammar in at most one way, as the leftmost-first matcher's groups are unique |
| Header.CapturesInLine | app.py:30 | every character of the sender and of the body is a character of the line |
| Header.HeaderStartsWithDigit | app.py:21 | a line that matches starts with a digit, since `re.match` anchors the date at the start |
| Timestamp.DaysInMonth | app.py:36 | a month has 28 to 31 days, and 29 exactly for February of a Gregorian leap year |
| Timestamp.ShortYear | app.py:34 | `%y` maps 00-68 to 2000-2068 and 69-99 to 1969-1999, keeping the last two digits |
| Timestamp.ClockHour | app.py:34 | `%I` with `%p` gives an hour 0-23 that is below 12 exactly for AM and agrees with the written hour modulo 12 |
| Timestamp.DayTokenRange | app.py:34 | a one- or two-digit token fits `%d` exactly when its value is 1-31 |
| Timestamp.MonthTokenRange | app.py:34 | a one- or two-digit token fits `%m` and `%I` exactly when its value is 1-12 |
| Timestamp.Hour24TokenRange | app.py:34 | a one- or two-digit token fits `%H` exactly when its value is at most 23 |
| Timestamp.MinuteTokenRange | app.py:34 | a one- or two-digit token fits `%M` exactly when its value is at most 59 |
| Timestamp.SplitJoin | app.py:36 | splitting the tokens of a date and time joined with their delimiters gives the tokens back |
| Timestamp.StrptimeJoin | app.py:36 | `strptime` of joined tokens is the conversion of those tokens |
| Timestamp.StrptimeValid | app.py:36 | whatever `strptime` returns is a date and time `datetime` accepts |
| Timestamp.Negotiate | app.py:33-39 | the loop over the formats, stopping at the first that parses, returns `ParseStamp` |
| Timestamp.FirstParseIff | app.py:34-39 | the result is `x` exactly when some format parses to `x` and every earlier format fails |
| Timestamp.FormatsExclusive | app.py:34 | no string is parsed by two different formats |
| Timestamp.OnlyFormat | app.py:34 | a string that one format parses is refused by the three others |
| Timestamp.ParseStampIff | app.py:33-39 | the timestamp is `x` exactly when some format of the list parses the joined date and time to `x`, so the order of trying is immaterial |
| Timestamp.ParseStampJoin | app.py:33-39 | a date and time made of tokens one format converts get that conversion |
| Refusals.SplitYearOf | app.py:36 | every format reads the year from what follows the date's second `/` |
| Refusals.ThreeDigitYear | app.py:34-41 | a date with a three-digit year matches the pattern but gets no timestamp, so the line takes the invalid-header path |
| Refusals.GluedMarker | app.py:34-41 | a time with no whitespace that ends in a letter, such as `3:00PM`, gets no timestamp |
| Parser.Classify | app.py:26-43 | a line is plain exactly when the pattern does not match it, and a plain line is kept as it is |
| Parser.ClassifyLine | app.py:26-43 | matching the pattern and then negotiating the format classifies a line as `Classify` does |
| Parser.Repeat | app.py:28-29 | `n` appends of the same message give `n` entries that are all that message |
| Parser.ExtendPlain | app.py:46 | adding a continuation line to a message and then the rest equals adding all of them |
| Parser.RunFromOpen | app.py:25-49 | from a state with an open message, the loop ends that message's entries with its final text, and then builds the reference list of the rest |
| Parser.RunIsExpected | app.py:25-49 | the loop over classified lines builds exactly the reference list `Expected` |
| Parser.ParseIsExpected | app.py:22-49 | the parse of a chat is the reference list of its classified lines |
| Parser.ExpectedCount | app.py:27-49 | invalid headers before the first valid one plus the entries of the list equal the lines that match the pattern |
| Parser.ParseLength | app.py:27-49 | the number of entries is the number of matching lines, less the invalid headers before the first valid one |
| Parser.ExpectedDropsLeading | app.py:27-29 | classified lines before the first valid header leave no trace in the reference list |
| Parser.ParseDropsLeading | app.py:27-29 | lines before the first valid header do not change the parse |
| Parser.ParseNoHeader | app.py:44-49 | a chat without a valid header has no messages |
| Parser.ExpectedFirst | app.py:30-46 | from a valid header, the first entry is its message with the text of the lines after it |
| Parser.ParseFrom | app.py:30-49 | with the first valid header at line `i`, the first message has that header's timestamp and sender, and its body followed by `" " + L` for each later plain line `L`; and the list has one entry plus one per later matching line |
| Parser.ExpectedAllOpen | app.py:27-49 | when every classified line is a valid header, the list is their messages, once each, in order |
| Parser.ParseAllHeaders | app.py:27-49 | a chat of valid headers gives one message per line, in line order, never re-sorted |
| Parser.GatherClean | app.py:46 | the text added by lines without line feeds has no line feed |
| Parser.ExpectedClean | app.py:30-46 | messages built from clean classified lines are clean |
| Parser.ClassifyClean | app.py:21 | a header without a line feed yields groups without one |
| Parser.ParseClean | app.py:25-46 | messages parsed from lines without line feeds have none in their sender or text |
| Parser.OwnersStep | app.py:27-46 | one pass of the loop extends the owners of the entries made so far |
| Parser.OwnersFromIncreasing | app.py:28-29 | without invalid headers, the message numbers of the entries strictly increase |
| Parser.OwnersDistinct | app.py:28-29 | in a chat whose every header parses, no two entries are the same message |
| Parser.Message.constructor | app.py:43 | a new message holds the header's timestamp, sender and body |
| Parser.Feed | app.py:27-46 | one loop pass appends the open message by reference on any matching line, opens a fresh message on a valid header, extends the open message's text in place on a plain line, and mirrors `Step` |
| Parser.Finish | app.py:48-49 | the final append gives `Output` of the state entry by entry, and two entries are one object exactly when they are one message |
| Parser.FoldingStart | app.py:22-23 | before the first line the list is empty, nothing is open, and the fold is at its start |
| Parser.FoldingEnd | app.py:25-49 | after the last line the state is the fold over all the lines |
| Parser.FeedAt | app.py:25-46 | the loop body on line `i` keeps the loop invariant and only creates fresh messages |
| Parser.Collect | app.py:22-49 | the loop's entries hold `Output` of the fold over the classified lines, and two entries are one object exactly when their owner numbers agree |
| Parser.ParseLines | app.py:22-49 | the list has the length and entry values of `Parse`, and entries alias exactly as `Owners` says |
| Report.DateLeKey | app.py:63 | on valid dates, the order of `date` objects is the order of a numeric key, so it is total and transitive |
| Report.Select | app.py:61-64 | the filtered list is no longer than the list, and all its entries are in range |
| Report.RangeFilter | app.py:58-64 | no list exactly when the start date is after the end date, and otherwise the entries in range |
| Report.SelectMembers | app.py:61-64 | a message is in the filtered list exactly when it is in the list and its date is within both bounds |
| Report.SelectCount | app.py:61-64 | every message in range is kept as often as it occurs, and no other message is kept |
| Report.SelectAppend | app.py:61-64 | filtering two parts of a list filters each part, keeping their order |
| Report.Kept | app.py:61-64 | the positions of the messages in range are increasing, in bounds and in range |
| Report.SelectKept | app.py:61-64 | entry `k` of the filtered list is the message at the `k`-th position in range, and every position in range is one of them |
| Report.SelectAll | app.py:61-64 | when every message is in range, the filter keeps the whole list |
| Report.SplitJoinLines | app.py:77 | lines without line feeds are recovered from their join by `"\n"` |
| Report.SummaryLines | app.py:76-79 | for clean messages, the block has `min(300, n)` lines, and line `i` is `sender + ": " + text` of message `i` |
| Report.SummaryEmpty | app.py:77-79 | no message in range gives an empty block |
| Report.ChatSummary | app.py:58-79 | for a chat whose lines hold no line feed, the block built from the filtered messages has one `sender: text` line per filtered message, up to 300 |
| Scenarios.SpacedHeader | app.py:21 | a line made of its groups with one space at each `\s*` matches with those groups |
| Scenarios.HeaderExample | app.py:21 | `1/1/24, 10:00 AM - Alice: Hi` gives the groups `1/1/24`, `10:00 AM`, `Alice`, `Hi` |
| Scenarios.SecondHeaderExample | app.py:21 | `1/1/24, 10:05 AM - Bob: Good thanks` gives its four groups |
| Scenarios.PlainExample | app.py:26 | `how are you` is not a header |
| Scenarios.ConvertShortYearPm | app.py:34 | the tokens of `1/2/24 3:00 PM` convert under the second format to 2024-02-01 15:00 |
| Scenarios.StampTwelveHour | app.py:33-39 | `1/2/24, 3:00 PM` is 2024-02-01 15:00, and the second format is the first that parses it |
| Scenarios.ConvertLongYear24 | app.py:34 | the tokens of `1/2/2024 15:00` convert under the third format to 2024-02-01 15:00 |
| Scenarios.StampTwentyFourHour | app.py:33-39 | `1/2/2024, 15:00` is 2024-02-01 15:00, and the third format is the first that parses it |
| Scenarios.ConvertMorning | app.py:34 | `1/1/24 10:MM AM` converts to ten o'clock and `MM` minutes on 2024-01-01 |
| Scenarios.StampFirst | app.py:33-39 | `1/1/24, 10:00 AM` is 2024-01-01 10:00 |
| Scenarios.StampSecond | app.py:33-39 | `1/1/24, 10:05 AM` is 2024-01-01 10:05 |
| Scenarios.ClassifyFirst | app.py:26-43 | Alice's header line opens her message with its timestamp, sender and body |
| Scenarios.ClassifySecond | app.py:26-43 | Bob's header line opens his message |
| Scenarios.ContinuationExample | app.py:44-46 | a header followed by two plain lines gives one message whose text is the body, then each line after a space |
| Scenarios.InvalidHeaderExample | app.py:28-46 | a header, an invalid header and a plain line give two entries, both with the plain line in their text |
| Scenarios.InvalidHeaderOwners | app.py:28-29 | those two entries are one object |
| Scenarios.TwoMessagesExample | app.py:27-49 | two headers with a plain line between give two messages, and the line goes to the first |

## Left out

- The Streamlit page is not modelled because it is presentation and event handling. This covers the title, the file uploader, the date pickers, the success, info and error notices, the button, and the preview of the first ten filtered messages (`app.py:12-18`, `51-59`, `65-73`, `108-109`).
- The date pickers' defaults are the dates of the first and last message (`app.py:55-56`). They are not modelled: the two dates of the range are inputs to `Report.RangeFilter`.
- Loading the environment, the OpenAI client and the chat-completion request (`app.py:5-10`, `102-107`) are left out. They are network and foreign calls with no visible semantics.
- The prompt template around the block (`app.py:81-99`) is left out. It is fixed prose. The model stops at the block that is inserted into it.
- UTF-8 decoding and `str.splitlines` (`app.py:18`, `25`) are not modelled. The input is a sequence of lines.
  - The clean-text results (`Parser.ParseClean`, `Report.ChatSummary`) assume lines without a line feed.
  - `splitlines` also breaks at other characters, such as `\r` and `\x1c`. That is not modelled.
- `\d` and `\s` are taken in their ASCII meaning, and `%p` as the English `AM`/`PM` of the C locale. Python's Unicode digit and space classes and locale-dependent markers are not modelled.
- `strptime` is modelled only for the four formats the program uses, not in general. The model has no seconds field, because no format reads one.
- Parser.ParseLines: does not state that the returned messages are newly allocated objects. The loop creates every message with `new`, and the loop invariant of `Parser.Collect` tracks that. It is kept out of the postcondition because restating it there made the proof too expensive.
- The whole chat example (`1/1/24, 10:00 AM - Alice: Hi` / `how are you` / `1/1/24, 10:05 AM - Bob: Good thanks`) is not proved as one `Parse` of three literal strings, because evaluating the recogniser on literal lines is too expensive for the verifier. Instead, `Scenarios.ClassifyFirst`, `Scenarios.PlainExample` and `Scenarios.ClassifySecond` classify its three lines, and `Scenarios.TwoMessagesExample` gives the resulting list.
