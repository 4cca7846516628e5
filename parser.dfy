/**
 * The loop that turns the lines of an exported chat into messages
 * (app.py, lines 22-49).
 *
 * A line that matches the header pattern and whose date and time parse
 * opens a new message; the message that was open is appended to the list
 * first.  A line that matches the pattern but whose date and time parse
 * with no format also appends the open message, and is then skipped: the
 * same message stays open, so the list holds it twice, and the text that
 * later lines add to it shows in both entries.  Any other line is added to
 * the open message's text after a space.  At the end the open message is
 * appended once more.
 */
module Parser {
  import opened Wrappers
  import opened Header
  import opened Timestamp

  /** A message as the list holds it: `{"datetime", "sender", "text"}`. */
  datatype Record = Record(stamp: Stamp, sender: string, text: string)

  /**
   * What a line is to the loop: a line the pattern does not match, a header
   * whose date and time do not parse, or a header that opens a message.
   */
  datatype Kind = Plain(line: string) | Invalid | Opens(record: Record)

  function Classify(line: string): (k: Kind)
    ensures k.Plain? <==> MatchHeader(line).None?
    ensures k.Plain? ==> k.line == line
  {
    match MatchHeader(line)
    case None => Plain(line)
    case Some(c) =>
      match ParseStamp(c.date, c.time)
      case None => Invalid
      case Some(dt) => Opens(Record(dt, c.sender, c.body))
  }

  /** `current_msg["text"] += " " + line`. */
  function Continue(r: Record, line: string): Record
  {
    r.(text := r.text + " " + line)
  }

  /**
   * The list of messages and the open message.  The list is `done` followed
   * by `pending` entries that are the open message itself, not copies of it.
   */
  datatype ParseState = ParseState(done: seq<Record>, open: Option<Record>, pending: nat)

  const Start := ParseState([], None, 0)

  /** `n` entries that are all `r`. */
  function Repeat(r: Record, n: nat): (s: seq<Record>)
    ensures |s| == n && forall i :: 0 <= i < n ==> s[i] == r
  {
    if n == 0 then [] else Repeat(r, n - 1) + [r]
  }

  /** The classified lines. */
  function Kinds(lines: seq<string>): (ks: seq<Kind>)
    ensures |ks| == |lines|
  {
    seq(|lines|, i requires 0 <= i < |lines| => Classify(lines[i]))
  }

  /** One pass of the loop body, on a classified line. */
  function Step(ps: ParseState, k: Kind): ParseState
  {
    match k
    case Opens(r) =>
      if ps.open.None? then ParseState(ps.done, Some(r), ps.pending)
      else ParseState(ps.done + Repeat(ps.open.value, ps.pending + 1), Some(r), 0)
    case Invalid =>
      if ps.open.None? then ps else ps.(pending := ps.pending + 1)
    case Plain(line) =>
      if ps.open.None? then ps else ps.(open := Some(Continue(ps.open.value, line)))
  }

  /** The loop over classified lines, from `ps`. */
  function RunFrom(ps: ParseState, ks: seq<Kind>): ParseState
    decreases |ks|
  {
    if ks == [] then ps else RunFrom(Step(ps, ks[0]), ks[1..])
  }

  /** The list after the final append; the pending entries show the open message as it ended. */
  function Output(ps: ParseState): seq<Record>
  {
    if ps.open.None? then ps.done else ps.done + Repeat(ps.open.value, ps.pending + 1)
  }

  /** The messages of a chat. */
  function Parse(lines: seq<string>): seq<Record>
  {
    Output(RunFrom(Start, Kinds(lines)))
  }

  // A reference description of the same result, read from each valid
  // header forwards rather than line by line.

  /** The text that the lines after a header add to its message: up to the next valid header, every line that does not match the pattern, after a space. */
  function Gather(rest: seq<Kind>): string
    decreases |rest|
  {
    if rest == [] then ""
    else match rest[0]
      case Opens(_) => ""
      case Invalid => Gather(rest[1..])
      case Plain(line) => " " + line + Gather(rest[1..])
  }

  /** The headers, up to the next valid one, whose date and time do not parse. */
  function Invalids(rest: seq<Kind>): nat
    decreases |rest|
  {
    if rest == [] then 0
    else match rest[0]
      case Opens(_) => 0
      case Invalid => 1 + Invalids(rest[1..])
      case Plain(_) => Invalids(rest[1..])
  }

  /** A header's message with the text of the lines after it. */
  function Extend(r: Record, rest: seq<Kind>): Record
  {
    r.(text := r.text + Gather(rest))
  }

  /**
   * The list the loop builds: for each valid header in order, its message,
   * once and once more for each invalid header before the next valid one.
   * Lines before the first valid header contribute nothing.
   */
  function Expected(ks: seq<Kind>): seq<Record>
    decreases |ks|
  {
    if ks == [] then []
    else match ks[0]
      case Opens(r) => Repeat(Extend(r, ks[1..]), 1 + Invalids(ks[1..])) + Expected(ks[1..])
      case _ => Expected(ks[1..])
  }

  lemma AppendAssoc(a: seq<Record>, b: seq<Record>, c: seq<Record>)
    ensures (a + b) + c == a + (b + c)
  {
  }

  /** Continuing a message with a line and then with the rest is extending it with both. */
  lemma ExtendPlain(r: Record, ks: seq<Kind>)
    requires ks != [] && ks[0].Plain?
    ensures Extend(r, ks) == Extend(Continue(r, ks[0].line), ks[1..])
  {
    var line, tail := ks[0].line, Gather(ks[1..]);
    assert Gather(ks) == " " + line + tail;
    assert r.text + (" " + line + tail) == (r.text + " " + line) + tail;
  }

  /** From a state with an open message, the rest of the loop finishes it and then builds `Expected` of the rest. */
  lemma {:induction false} RunFromOpen(ps: ParseState, ks: seq<Kind>)
    requires ps.open.Some?
    ensures Output(RunFrom(ps, ks))
         == ps.done + Repeat(Extend(ps.open.value, ks), ps.pending + 1 + Invalids(ks)) + Expected(ks)
    decreases |ks|
  {
    var r := ps.open.value;
    if ks == [] {
      assert Extend(r, ks) == r;
    } else {
      var rest := ks[1..];
      var next := Step(ps, ks[0]);
      assert RunFrom(ps, ks) == RunFrom(next, rest);
      RunFromOpen(next, rest);
      match ks[0]
      case Opens(h) =>
        assert Extend(r, ks) == r;
        var mine := Repeat(r, ps.pending + 1);
        var theirs := Repeat(Extend(h, rest), 1 + Invalids(rest));
        assert next.done == ps.done + mine;
        assert Expected(ks) == theirs + Expected(rest);
        AppendAssoc(ps.done + mine, theirs, Expected(rest));
      case Invalid =>
        assert Extend(r, ks) == Extend(r, rest);
      case Plain(line) =>
        ExtendPlain(r, ks);
    }
  }

  /** The loop builds exactly the reference list. */
  lemma {:induction false} RunIsExpected(ks: seq<Kind>)
    ensures Output(RunFrom(Start, ks)) == Expected(ks)
    decreases |ks|
  {
    if ks != [] {
      var rest := ks[1..];
      match ks[0]
      case Opens(r) =>
        RunFromOpen(ParseState([], Some(r), 0), rest);
      case _ =>
        RunIsExpected(rest);
    }
  }

  lemma ParseIsExpected(lines: seq<string>)
    ensures Parse(lines) == Expected(Kinds(lines))
  {
    RunIsExpected(Kinds(lines));
  }

  /** Lines that match the header pattern, valid or not. */
  function Matching(ks: seq<Kind>): nat
    decreases |ks|
  {
    if ks == [] then 0 else (if ks[0].Plain? then 0 else 1) + Matching(ks[1..])
  }

  /** Every header after the first valid one adds one entry; the final append adds one more. */
  lemma {:induction false} ExpectedCount(ks: seq<Kind>)
    ensures Invalids(ks) + |Expected(ks)| == Matching(ks)
    decreases |ks|
  {
    if ks != [] {
      ExpectedCount(ks[1..]);
    }
  }

  /** Lines before the first valid header leave no trace. */
  lemma {:induction false} ExpectedDropsLeading(pre: seq<Kind>, ks: seq<Kind>)
    requires forall i :: 0 <= i < |pre| ==> !pre[i].Opens?
    ensures Expected(pre + ks) == Expected(ks)
    decreases |pre|
  {
    if pre != [] {
      assert (pre + ks)[0] == pre[0];
      assert (pre + ks)[1..] == pre[1..] + ks;
      assert Expected(pre + ks) == Expected(pre[1..] + ks);
      ExpectedDropsLeading(pre[1..], ks);
    } else {
      assert pre + ks == ks;
    }
  }

  /** When every line is a valid header, each message is its header's, once, in order. */
  lemma {:induction false} ExpectedAllOpen(ks: seq<Kind>)
    requires forall i :: 0 <= i < |ks| ==> ks[i].Opens?
    ensures |Expected(ks)| == |ks|
    ensures forall i :: 0 <= i < |ks| ==> Expected(ks)[i] == ks[i].record
    decreases |ks|
  {
    if ks != [] {
      var rest := ks[1..];
      ExpectedAllOpen(rest);
      var r := ks[0].record;
      assert Gather(rest) == "" && Invalids(rest) == 0;
      assert Extend(r, rest) == r;
      assert Repeat(r, 1) == [r];
      assert Expected(ks) == [r] + Expected(rest);
    }
  }

  /** Whether a piece of text is free of line feeds. */
  predicate OneLine(s: string) { '\n' !in s }

  predicate CleanRecord(r: Record) { OneLine(r.sender) && OneLine(r.text) }

  predicate CleanKind(k: Kind)
  {
    match k
    case Plain(line) => OneLine(line)
    case Invalid => true
    case Opens(r) => CleanRecord(r)
  }

  lemma {:induction false} GatherClean(ks: seq<Kind>)
    requires forall i :: 0 <= i < |ks| ==> CleanKind(ks[i])
    ensures OneLine(Gather(ks))
    decreases |ks|
  {
    if ks != [] {
      GatherClean(ks[1..]);
    }
  }

  /** Messages built from lines without line feeds have none either. */
  lemma {:induction false} ExpectedClean(ks: seq<Kind>)
    requires forall i :: 0 <= i < |ks| ==> CleanKind(ks[i])
    ensures forall i :: 0 <= i < |Expected(ks)| ==> CleanRecord(Expected(ks)[i])
    decreases |ks|
  {
    if ks != [] {
      var rest := ks[1..];
      ExpectedClean(rest);
      if ks[0].Opens? {
        GatherClean(rest);
      }
    }
  }

  lemma KindAt(lines: seq<string>, i: nat)
    requires i < |lines|
    ensures Kinds(lines)[i] == Classify(lines[i])
  {
  }

  lemma KindsAppend(a: seq<string>, b: seq<string>)
    ensures Kinds(a + b) == Kinds(a) + Kinds(b)
  {
    var joined, parts := Kinds(a + b), Kinds(a) + Kinds(b);
    forall i | 0 <= i < |a + b|
      ensures joined[i] == parts[i]
    {
      KindAt(a + b, i);
      if i < |a| {
        KindAt(a, i);
        assert (a + b)[i] == a[i];
      } else {
        KindAt(b, i - |a|);
        assert (a + b)[i] == b[i - |a|];
      }
    }
  }

  /** Lines before the first header whose date and time parse are dropped. */
  lemma ParseDropsLeading(pre: seq<string>, lines: seq<string>)
    requires forall i :: 0 <= i < |pre| ==> !Classify(pre[i]).Opens?
    ensures Parse(pre + lines) == Parse(lines)
  {
    KindsAppend(pre, lines);
    ParseIsExpected(pre + lines);
    ParseIsExpected(lines);
    ExpectedDropsLeading(Kinds(pre), Kinds(lines));
  }

  /** A chat with no valid header has no messages. */
  lemma ParseNoHeader(lines: seq<string>)
    requires forall i :: 0 <= i < |lines| ==> !Classify(lines[i]).Opens?
    ensures Parse(lines) == []
  {
    ParseDropsLeading(lines, []);
    assert lines + [] == lines;
  }

  /** The number of messages: the lines that match the pattern, less the invalid headers before the first valid one. */
  lemma ParseLength(lines: seq<string>)
    ensures |Parse(lines)| == Matching(Kinds(lines)) - Invalids(Kinds(lines))
  {
    ParseIsExpected(lines);
    ExpectedCount(Kinds(lines));
  }

  lemma DropFirstKind(x: seq<Kind>, y: seq<Kind>)
    requires |x| == 1
    ensures (x + y)[1..] == y
  {
  }

  /** From a valid header: its message comes first, and it is one of the matching lines. */
  lemma ExpectedFirst(ks: seq<Kind>)
    requires ks != [] && ks[0].Opens?
    ensures Invalids(ks) == 0 && Matching(ks) == 1 + Matching(ks[1..])
    ensures |Expected(ks)| >= 1 && Expected(ks)[0] == Extend(ks[0].record, ks[1..])
  {
    var rest := ks[1..];
    var r := ks[0].record;
    assert Expected(ks) == Repeat(Extend(r, rest), 1 + Invalids(rest)) + Expected(rest);
  }

  /**
   * With the first valid header at line `i`: the first message has that
   * header's date, time and sender, and its body followed by the lines after
   * it; and the list has one entry for it plus one for every later line
   * that matches the pattern.
   */
  lemma ParseFrom(lines: seq<string>, i: nat)
    requires i < |lines| && Classify(lines[i]).Opens?
    requires forall j :: 0 <= j < i ==> !Classify(lines[j]).Opens?
    ensures |Parse(lines)| == 1 + Matching(Kinds(lines[i + 1..]))
    ensures Parse(lines)[0] == Extend(Classify(lines[i]).record, Kinds(lines[i + 1..]))
  {
    assert lines == lines[..i] + lines[i..];
    ParseDropsLeading(lines[..i], lines[i..]);
    var from := lines[i..];
    assert from == [lines[i]] + lines[i + 1..];
    KindsAppend([lines[i]], lines[i + 1..]);
    DropFirstKind(Kinds([lines[i]]), Kinds(lines[i + 1..]));
    var ks := Kinds(from);
    ExpectedFirst(ks);
    ParseLength(from);
    ParseIsExpected(from);
  }

  /** A chat of valid headers only: one message per line, its text the header's. */
  lemma ParseAllHeaders(lines: seq<string>)
    requires forall i :: 0 <= i < |lines| ==> Classify(lines[i]).Opens?
    ensures |Parse(lines)| == |lines|
    ensures forall i :: 0 <= i < |lines| ==> Parse(lines)[i] == Classify(lines[i]).record
  {
    ParseIsExpected(lines);
    ExpectedAllOpen(Kinds(lines));
  }

  lemma ClassifyClean(line: string)
    requires OneLine(line)
    ensures CleanKind(Classify(line))
  {
    var h := MatchHeader(line);
    if h.Some? {
      CapturesInLine(line, h.value, '\n');
    }
  }

  /** Messages parsed from lines without line feeds have none in their sender or text. */
  lemma ParseClean(lines: seq<string>)
    requires forall i :: 0 <= i < |lines| ==> OneLine(lines[i])
    ensures forall i :: 0 <= i < |Parse(lines)| ==> CleanRecord(Parse(lines)[i])
  {
    var ks := Kinds(lines);
    forall i | 0 <= i < |ks|
      ensures CleanKind(ks[i])
    {
      ClassifyClean(lines[i]);
    }
    ParseIsExpected(lines);
    ExpectedClean(ks);
  }

  // Which entries of the list are the same message: the loop appends the
  // open message, by reference, once for each header after it and once at
  // the end.

  /**
   * The entry a classified line appends when `count` messages were opened
   * before it: a header appends the open message, the last one opened.
   */
  function Appended(count: nat, k: Kind): seq<nat>
  {
    if !k.Plain? && count > 0 then [count - 1] else []
  }

  /** The number of messages opened after a line, `count` before it. */
  function Opened(count: nat, k: Kind): nat
  {
    if k.Opens? then count + 1 else count
  }

  /**
   * For each entry appended while the loop runs over `ks`, the number of the
   * message it is, when `count` messages were opened before (messages are
   * numbered from 0 in the order of their headers).
   */
  function OwnersFrom(count: nat, ks: seq<Kind>): seq<nat>
    decreases |ks|
  {
    if ks == [] then (if count > 0 then [count - 1] else [])
    else Appended(count, ks[0]) + OwnersFrom(Opened(count, ks[0]), ks[1..])
  }

  /** One pass of the loop extends the owners of the entries so far. */
  lemma OwnersStep(owners: seq<nat>, count: nat, ks: seq<Kind>, i: nat)
    requires i < |ks|
    ensures owners + OwnersFrom(count, ks[i..])
         == (owners + Appended(count, ks[i])) + OwnersFrom(Opened(count, ks[i]), ks[i + 1..])
  {
    assert ks[i..][1..] == ks[i + 1..];
  }

  /** For each entry of the final list, the number of the message it is. */
  function Owners(ks: seq<Kind>): seq<nat>
  {
    OwnersFrom(0, ks)
  }

  /**
   * Without headers whose date does not parse, each message is appended
   * once: the owners strictly increase, so no two entries are one object.
   */
  lemma {:induction false} OwnersFromIncreasing(count: nat, ks: seq<Kind>)
    requires forall i :: 0 <= i < |ks| ==> !ks[i].Invalid?
    ensures forall j, k :: 0 <= j < k < |OwnersFrom(count, ks)| ==> OwnersFrom(count, ks)[j] < OwnersFrom(count, ks)[k]
    ensures forall j :: 0 <= j < |OwnersFrom(count, ks)| ==> count <= OwnersFrom(count, ks)[j] + 1
    decreases |ks|
  {
    if ks != [] {
      OwnersFromIncreasing(Opened(count, ks[0]), ks[1..]);
    }
  }

  /** In a chat whose every header parses, no two entries of the list are the same message. */
  lemma OwnersDistinct(lines: seq<string>)
    requires forall i :: 0 <= i < |lines| ==> !Classify(lines[i]).Invalid?
    ensures forall j, k :: 0 <= j < k < |Owners(Kinds(lines))| ==> Owners(Kinds(lines))[j] != Owners(Kinds(lines))[k]
  {
    var ks := Kinds(lines);
    forall i | 0 <= i < |ks|
      ensures !ks[i].Invalid?
    {
      KindAt(lines, i);
    }
    OwnersFromIncreasing(0, ks);
  }

  /** A message of the list: a mutable record, appended by reference. */
  class Message {
    var stamp: Stamp
    var sender: string
    var text: string

    function Value(): Record
      reads this
    {
      Record(stamp, sender, text)
    }

    constructor (r: Record)
      ensures Value() == r
    {
      stamp, sender, text := r.stamp, r.sender, r.text;
    }
  }

  /** Matches the header pattern and, when it matches, tries the formats in turn. */
  method ClassifyLine(line: string) returns (k: Kind)
    ensures k == Classify(line)
  {
    var h := MatchHeader(line);
    if h.None? {
      k := Plain(line);
    } else {
      var c := h.value;
      var dt := Negotiate(c.date, c.time);
      k := if dt.Some? then Opens(Record(dt.value, c.sender, c.body)) else Invalid;
    }
  }

  /**
   * The objects mirror the state: `objs` are the messages opened so far,
   * distinct, the last one open; entry `k` of the list is message
   * `owners[k]`; the entries of closed messages hold `st.done`, and the
   * pending entries are the open message.
   */
  ghost predicate Mirrors(messages: seq<Message>, current: Message?, objs: seq<Message>, owners: seq<nat>, st: ParseState)
    reads objs
  {
    (forall a, b :: 0 <= a < b < |objs| ==> objs[a] != objs[b]) &&
    (current == null <==> st.open.None?) && (current == null <==> objs == []) &&
    (current == null ==> messages == [] && st == Start) &&
    (current != null ==> current == objs[|objs| - 1] && current.Value() == st.open.value) &&
    |messages| == |owners| == |st.done| + st.pending &&
    (forall k :: 0 <= k < |messages| ==> owners[k] < |objs| && messages[k] == objs[owners[k]]) &&
    (forall k :: 0 <= k < |st.done| ==> owners[k] < |objs| - 1 && objs[owners[k]].Value() == st.done[k]) &&
    (forall k :: |st.done| <= k < |messages| ==> owners[k] == |objs| - 1)
  }

  /** One pass of the loop body on a classified line (app.py, lines 27-46). */
  method Feed(kind: Kind, messages: seq<Message>, current: Message?,
              ghost objs: seq<Message>, ghost owners: seq<nat>, ghost st: ParseState)
    returns (messages': seq<Message>, current': Message?, ghost objs': seq<Message>, ghost owners': seq<nat>)
    requires Mirrors(messages, current, objs, owners, st)
    modifies objs
    ensures Mirrors(messages', current', objs', owners', Step(st, kind))
    ensures |objs'| == Opened(|objs|, kind) && forall a :: 0 <= a < |objs| ==> objs'[a] == objs[a]
    ensures forall a :: |objs| <= a < |objs'| ==> fresh(objs'[a])
    ensures owners' == owners + Appended(|objs|, kind)
  {
    messages', current', objs', owners' := messages, current, objs, owners;
    match kind {
      case Opens(r) =>
        if current != null {
          messages' := messages + [current];
          owners' := owners + [|objs| - 1];
        }
        current' := new Message(r);
        objs' := objs + [current'];
      case Invalid =>
        if current != null {
          messages' := messages + [current];
          owners' := owners + [|objs| - 1];
        }
      case Plain(line) =>
        if current != null {
          current.text := current.text + " " + line;
        }
    }
  }

  /**
   * The final append (app.py, lines 48-49): the list is `Output` of the
   * state, entry by entry, and two entries are the same object exactly when
   * they are the same message.
   */
  method Finish(messages: seq<Message>, current: Message?,
                ghost objs: seq<Message>, ghost owners: seq<nat>, ghost st: ParseState)
    returns (messages': seq<Message>, ghost owners': seq<nat>)
    requires Mirrors(messages, current, objs, owners, st)
    ensures owners' == owners + (if |objs| > 0 then [|objs| - 1] else [])
    ensures |messages'| == |Output(st)| == |owners'|
    ensures forall k :: 0 <= k < |messages'| ==> owners'[k] < |objs| && messages'[k] == objs[owners'[k]]
    ensures forall k :: 0 <= k < |messages'| ==> messages'[k].Value() == Output(st)[k]
    ensures forall j, k :: 0 <= j < |messages'| && 0 <= k < |messages'| ==>
              (messages'[j] == messages'[k] <==> owners'[j] == owners'[k])
  {
    messages', owners' := messages, owners;
    if current != null {
      messages' := messages + [current];
      owners' := owners + [|objs| - 1];
      assert Output(st) == st.done + Repeat(st.open.value, st.pending + 1);
    }
    forall j, k | 0 <= j < |messages'| && 0 <= k < |messages'|
      ensures messages'[j] == messages'[k] <==> owners'[j] == owners'[k]
    {
      assert owners'[j] < |objs| && messages'[j] == objs[owners'[j]];
      assert owners'[k] < |objs| && messages'[k] == objs[owners'[k]];
    }
  }

  /** The classification of line `i`. */
  method ClassifyAt(lines: seq<string>, i: nat, ghost ks: seq<Kind>) returns (k: Kind)
    requires i < |lines| && ks == Kinds(lines)
    ensures k == ks[i]
  {
    k := ClassifyLine(lines[i]);
  }

  /**
   * The state of the parse loop before line `i`: the fold over the lines
   * still to come leads to the fold over all of them, the entries so far
   * and those still to come make up all of them, and the objects mirror
   * the state.
   */
  ghost predicate Folding(lines: seq<string>, ks: seq<Kind>, i: nat,
                          messages: seq<Message>, current: Message?,
                          objs: seq<Message>, owners: seq<nat>, st: ParseState)
    reads objs
  {
    i <= |lines| == |ks| && ks == Kinds(lines) &&
    RunFrom(st, ks[i..]) == RunFrom(Start, ks) &&
    owners + OwnersFrom(|objs|, ks[i..]) == Owners(ks) &&
    Mirrors(messages, current, objs, owners, st)
  }

  /** Before the first line, nothing is open and no entry is made. */
  lemma FoldingStart(lines: seq<string>)
    ensures Folding(lines, Kinds(lines), 0, [], null, [], [], Start)
  {
    var ks := Kinds(lines);
    assert ks[0..] == ks;
    assert [] + OwnersFrom(0, ks) == Owners(ks);
  }

  /** After the last line, the state is the fold over all the lines. */
  lemma FoldingEnd(lines: seq<string>, ks: seq<Kind>, messages: seq<Message>, current: Message?,
                   objs: seq<Message>, owners: seq<nat>, st: ParseState)
    requires Folding(lines, ks, |lines|, messages, current, objs, owners, st)
    ensures st == RunFrom(Start, ks)
    ensures owners + (if |objs| > 0 then [|objs| - 1] else []) == Owners(ks)
    ensures Mirrors(messages, current, objs, owners, st)
  {
    assert ks[|lines|..] == [];
  }

  /** The loop body on line `i`. */
  method FeedAt(lines: seq<string>, i: nat, ghost ks: seq<Kind>,
                messages: seq<Message>, current: Message?,
                ghost objs: seq<Message>, ghost owners: seq<nat>, ghost st: ParseState)
    returns (messages': seq<Message>, current': Message?, ghost objs': seq<Message>,
             ghost owners': seq<nat>, ghost st': ParseState)
    requires i < |lines|
    requires Folding(lines, ks, i, messages, current, objs, owners, st)
    modifies objs
    ensures Folding(lines, ks, i + 1, messages', current', objs', owners', st')
    ensures |objs| <= |objs'| && forall a :: 0 <= a < |objs| ==> objs'[a] == objs[a]
    ensures forall a :: |objs| <= a < |objs'| ==> fresh(objs'[a])
  {
    var kind := ClassifyAt(lines, i, ks);
    assert ks[i..][1..] == ks[i + 1..];
    OwnersStep(owners, |objs|, ks, i);
    messages', current', objs', owners' := Feed(kind, messages, current, objs, owners, st);
    st' := Step(st, kind);
  }

  /**
   * The parse loop, given the classification of the lines as a ghost
   * argument: the list is `Output` of the fold over it.
   */
  method Collect(lines: seq<string>, ghost ks: seq<Kind>) returns (messages: seq<Message>, ghost owners: seq<nat>)
    requires ks == Kinds(lines)
    ensures owners == Owners(ks)
    ensures |messages| == |Output(RunFrom(Start, ks))| == |owners|
    ensures forall k :: 0 <= k < |messages| ==> messages[k].Value() == Output(RunFrom(Start, ks))[k]
    ensures forall j, k :: 0 <= j < |messages| && 0 <= k < |messages| ==>
              (messages[j] == messages[k] <==> owners[j] == owners[k])
  {
    ghost var st := Start;
    ghost var objs: seq<Message> := [];
    owners := [];
    messages := [];
    var current: Message? := null;
    var i := 0;
    FoldingStart(lines);
    while i < |lines|
      invariant i <= |lines|
      invariant Folding(lines, ks, i, messages, current, objs, owners, st)
      invariant forall a :: 0 <= a < |objs| ==> fresh(objs[a])
    {
      messages, current, objs, owners, st := FeedAt(lines, i, ks, messages, current, objs, owners, st);
      i := i + 1;
    }
    FoldingEnd(lines, ks, messages, current, objs, owners, st);
    messages, owners := Finish(messages, current, objs, owners, st);
  }

  /**
   * The parse loop over the lines of a chat.  The entries hold the messages
   * of `Parse`, and two entries are the same object exactly when they are
   * the same message.
   */
  method ParseLines(lines: seq<string>) returns (messages: seq<Message>)
    ensures |messages| == |Parse(lines)|
    ensures forall k :: 0 <= k < |messages| ==> messages[k].Value() == Parse(lines)[k]
    ensures |Owners(Kinds(lines))| == |messages|
    ensures forall j, k :: 0 <= j < |messages| && 0 <= k < |messages| ==>
              (messages[j] == messages[k] <==> Owners(Kinds(lines))[j] == Owners(Kinds(lines))[k])
  {
    ghost var owners;
    messages, owners := Collect(lines, Kinds(lines));
  }
}
