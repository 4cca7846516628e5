/**
 * What happens to the parsed messages afterwards (app.py, lines 53-79): the
 * inclusive date-range filter, and the text block of the first 300 filtered
 * messages, one `sender: text` line each, that is handed to the summariser.
 * The two dates of the range are inputs; where they come from is not part
 * of this model.
 */
module Report {
  import opened Wrappers
  import opened Text
  import opened Timestamp
  import opened Parser

  predicate ValidDate(d: Date)
  {
    1 <= d.month <= 12 && 1 <= d.day <= 31
  }

  /** A number that orders valid dates the same way. */
  function DayKey(d: Date): int
  {
    d.year * 416 + d.month * 32 + d.day
  }

  /** On valid dates the comparison is the order of their keys, so it is total and transitive. */
  lemma DateLeKey(a: Date, b: Date)
    requires ValidDate(a) && ValidDate(b)
    ensures DateLe(a, b) <==> DayKey(a) <= DayKey(b)
  {
    if a.year < b.year {
      assert DayKey(a) <= a.year * 416 + 415;
      assert (a.year + 1) * 416 <= b.year * 416;
    } else if b.year < a.year {
      assert DayKey(b) <= b.year * 416 + 415;
      assert (b.year + 1) * 416 <= a.year * 416;
    }
  }

  /** A message whose date lies between `start` and `end`, both included. */
  predicate InRange(start: Date, end: Date, r: Record)
  {
    DateLe(start, DateOf(r.stamp)) && DateLe(DateOf(r.stamp), end)
  }

  /** The messages in range, in the order of the list (app.py, lines 61-64). */
  function Select(start: Date, end: Date, ms: seq<Record>): (fs: seq<Record>)
    ensures |fs| <= |ms|
    ensures forall i :: 0 <= i < |fs| ==> InRange(start, end, fs[i])
  {
    if ms == [] then []
    else Select(start, end, ms[..|ms| - 1]) + (if InRange(start, end, ms[|ms| - 1]) then [ms[|ms| - 1]] else [])
  }

  /**
   * The filter of the page (app.py, lines 58-64): no list when the start
   * date is after the end date, and otherwise the messages in range.
   */
  function RangeFilter(start: Date, end: Date, ms: seq<Record>): (r: Option<seq<Record>>)
    ensures r.None? <==> !DateLe(start, end)
    ensures r.Some? ==> r.value == Select(start, end, ms)
  {
    if !DateLe(start, end) then None else Some(Select(start, end, ms))
  }

  /** A message is kept exactly when it is in the list and in range. */
  lemma {:induction false} SelectMembers(start: Date, end: Date, ms: seq<Record>, r: Record)
    ensures r in Select(start, end, ms) <==> r in ms && InRange(start, end, r)
  {
    if ms != [] {
      var init, last := ms[..|ms| - 1], ms[|ms| - 1];
      assert ms == init + [last];
      SelectMembers(start, end, init, r);
    }
  }

  /** Every message in range is kept as often as it occurs, and no other is. */
  lemma {:induction false} SelectCount(start: Date, end: Date, ms: seq<Record>, r: Record)
    ensures multiset(Select(start, end, ms))[r] == if InRange(start, end, r) then multiset(ms)[r] else 0
  {
    if ms != [] {
      var init, last := ms[..|ms| - 1], ms[|ms| - 1];
      assert ms == init + [last];
      SelectCount(start, end, init, r);
    }
  }

  /** Filtering a list in two parts filters each part, in order. */
  lemma {:induction false} SelectAppend(start: Date, end: Date, a: seq<Record>, b: seq<Record>)
    ensures Select(start, end, a + b) == Select(start, end, a) + Select(start, end, b)
  {
    if b == [] {
      assert a + b == a;
    } else {
      var init, last := b[..|b| - 1], b[|b| - 1];
      assert (a + b)[..|a + b| - 1] == a + init;
      SelectAppend(start, end, a, init);
    }
  }

  /** The positions of the messages in range, in increasing order. */
  function Kept(start: Date, end: Date, ms: seq<Record>): (ix: seq<nat>)
    ensures forall k :: 0 <= k < |ix| ==> ix[k] < |ms| && InRange(start, end, ms[ix[k]])
    ensures forall j, k :: 0 <= j < k < |ix| ==> ix[j] < ix[k]
  {
    if ms == [] then []
    else Kept(start, end, ms[..|ms| - 1]) + (if InRange(start, end, ms[|ms| - 1]) then [|ms| - 1] else [])
  }

  /**
   * The filter keeps order: entry `k` of the result is the message at the
   * `k`-th position in range, and every position in range is one of them.
   */
  lemma {:induction false} SelectKept(start: Date, end: Date, ms: seq<Record>)
    ensures |Select(start, end, ms)| == |Kept(start, end, ms)|
    ensures forall k :: 0 <= k < |Kept(start, end, ms)| ==> Select(start, end, ms)[k] == ms[Kept(start, end, ms)[k]]
    ensures forall i :: 0 <= i < |ms| && InRange(start, end, ms[i]) ==> i in Kept(start, end, ms)
  {
    if ms != [] {
      var init := ms[..|ms| - 1];
      SelectKept(start, end, init);
      forall i | 0 <= i < |init| && InRange(start, end, ms[i])
        ensures i in Kept(start, end, ms)
      {
        assert ms[i] == init[i];
      }
    }
  }

  /** With every message in range, nothing is dropped. */
  lemma {:induction false} SelectAll(start: Date, end: Date, ms: seq<Record>)
    requires forall i :: 0 <= i < |ms| ==> InRange(start, end, ms[i])
    ensures Select(start, end, ms) == ms
  {
    if ms != [] {
      SelectAll(start, end, ms[..|ms| - 1]);
    }
  }

  // The text block for the summariser (app.py, lines 76-79).

  const SampleLimit: nat := 300

  function Min(a: nat, b: nat): nat
  {
    if a <= b then a else b
  }

  /** One message as a line of the block. */
  function RenderLine(r: Record): string
  {
    r.sender + ": " + r.text
  }

  function Rendered(fs: seq<Record>): (ls: seq<string>)
    ensures |ls| == |fs|
  {
    seq(|fs|, i requires 0 <= i < |fs| => RenderLine(fs[i]))
  }

  /** The lines joined with a line feed between each two. */
  function JoinLines(ls: seq<string>): string
    decreases |ls|
  {
    if ls == [] then ""
    else if |ls| == 1 then ls[0]
    else ls[0] + "\n" + JoinLines(ls[1..])
  }

  /** The block: the first `SampleLimit` filtered messages, one line each. */
  function Summary(fs: seq<Record>): string
  {
    JoinLines(Rendered(fs[..Min(SampleLimit, |fs|)]))
  }

  /** The pieces of a string between its line feeds. */
  function SplitLines(s: string): (ls: seq<string>)
    ensures |ls| >= 1
    decreases |s|
  {
    var j := FindFrom(s, 0, '\n');
    if j == |s| then [s] else [s[..j]] + SplitLines(s[j + 1..])
  }

  /** Lines without line feeds are recovered from their join. */
  lemma {:induction false} SplitJoinLines(ls: seq<string>)
    requires |ls| >= 1 && forall i :: 0 <= i < |ls| ==> OneLine(ls[i])
    ensures SplitLines(JoinLines(ls)) == ls
    decreases |ls|
  {
    var s := JoinLines(ls);
    if |ls| == 1 {
      assert s[0..] == s;
      FindFromIs(s, 0, '\n', |s|);
    } else {
      var rest := JoinLines(ls[1..]);
      assert s == ls[0] + ("\n" + rest);
      assert s[0..|ls[0]|] == ls[0];
      FindFromIs(s, 0, '\n', |ls[0]|);
      assert s[|ls[0]| + 1..] == rest;
      SplitJoinLines(ls[1..]);
    }
  }

  /** A line of the block has no line feed when the message has none. */
  lemma RenderClean(r: Record)
    requires CleanRecord(r)
    ensures OneLine(RenderLine(r))
  {
  }

  /**
   * The block of a non-empty filtered list of clean messages has
   * min(300, n) lines, and line `i` is message `i` as `sender: text`.
   */
  lemma SummaryLines(fs: seq<Record>)
    requires fs != [] && forall i :: 0 <= i < |fs| ==> CleanRecord(fs[i])
    ensures |SplitLines(Summary(fs))| == Min(SampleLimit, |fs|)
    ensures forall i :: 0 <= i < Min(SampleLimit, |fs|) ==>
              SplitLines(Summary(fs))[i] == fs[i].sender + ": " + fs[i].text
  {
    var ls := Rendered(fs[..Min(SampleLimit, |fs|)]);
    forall i | 0 <= i < |ls|
      ensures OneLine(ls[i])
    {
      RenderClean(fs[i]);
    }
    SplitJoinLines(ls);
  }

  /** No message in range gives an empty block. */
  lemma SummaryEmpty()
    ensures Summary([]) == ""
  {
  }

  /**
   * For a chat whose lines hold no line feed, the block built from the
   * filtered messages has one line per message, up to 300.
   */
  lemma ChatSummary(lines: seq<string>, start: Date, end: Date, fs: seq<Record>)
    requires forall i :: 0 <= i < |lines| ==> OneLine(lines[i])
    requires RangeFilter(start, end, Parse(lines)) == Some(fs) && fs != []
    ensures |SplitLines(Summary(fs))| == Min(SampleLimit, |fs|)
    ensures forall i :: 0 <= i < Min(SampleLimit, |fs|) ==>
              SplitLines(Summary(fs))[i] == fs[i].sender + ": " + fs[i].text
  {
    var ms := Parse(lines);
    ParseClean(lines);
    forall i | 0 <= i < |fs|
      ensures CleanRecord(fs[i])
    {
      SelectMembers(start, end, ms, fs[i]);
    }
    SummaryLines(fs);
  }
}
