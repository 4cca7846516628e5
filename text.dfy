/**
 * Character classes and scanners over strings.  `\d` and `\s` are taken in
 * their ASCII meaning: the digits 0-9, and space, tab, line feed, vertical
 * tab, form feed and carriage return.  The scanners work on positions in one
 * string rather than on slices of it.
 */
module Text {

  predicate IsDigit(c: char) { '0' <= c <= '9' }

  /** Space, or one of the control characters 9 to 13 (\t \n \v \f \r). */
  predicate IsSpace(c: char) { c == ' ' || '\t' <= c <= '\r' }

  predicate AllDigits(s: string) { forall i :: 0 <= i < |s| ==> IsDigit(s[i]) }

  predicate AllSpace(s: string) { forall i :: 0 <= i < |s| ==> IsSpace(s[i]) }

  predicate NoSpace(s: string) { forall i :: 0 <= i < |s| ==> !IsSpace(s[i]) }

  // Each scanner promises only a bound; what it finds is stated by the
  // lemmas beside it, so that a caller pays for that only where it is used.

  /** End of the run of digits that starts at position `i` of `s`. */
  function DigitsEnd(s: string, i: nat): (j: nat)
    requires i <= |s|
    ensures i <= j <= |s|
    decreases |s| - i
  {
    if i < |s| && IsDigit(s[i]) then DigitsEnd(s, i + 1) else i
  }

  lemma {:induction false} DigitsEndMaximal(s: string, i: nat)
    requires i <= |s|
    ensures AllDigits(s[i..DigitsEnd(s, i)])
    ensures DigitsEnd(s, i) < |s| ==> !IsDigit(s[DigitsEnd(s, i)])
    decreases |s| - i
  {
    if i < |s| && IsDigit(s[i]) {
      DigitsEndMaximal(s, i + 1);
      assert s[i..DigitsEnd(s, i)] == [s[i]] + s[i + 1..DigitsEnd(s, i)];
    }
  }

  /** A run of digits followed by a non-digit is the run the scanner finds. */
  lemma {:induction false} DigitsEndIs(s: string, i: nat, j: nat)
    requires i <= j <= |s| && AllDigits(s[i..j]) && (j < |s| ==> !IsDigit(s[j]))
    ensures DigitsEnd(s, i) == j
    decreases j - i
  {
    if i < j {
      assert s[i..j][0] == s[i];
      assert s[i + 1..j] == s[i..j][1..];
      DigitsEndIs(s, i + 1, j);
    }
  }

  /** End of the run of whitespace that starts at position `i` of `s`. */
  function SpacesEnd(s: string, i: nat): (j: nat)
    requires i <= |s|
    ensures i <= j <= |s|
    decreases |s| - i
  {
    if i < |s| && IsSpace(s[i]) then SpacesEnd(s, i + 1) else i
  }

  lemma {:induction false} SpacesEndMaximal(s: string, i: nat)
    requires i <= |s|
    ensures AllSpace(s[i..SpacesEnd(s, i)])
    ensures SpacesEnd(s, i) < |s| ==> !IsSpace(s[SpacesEnd(s, i)])
    decreases |s| - i
  {
    if i < |s| && IsSpace(s[i]) {
      SpacesEndMaximal(s, i + 1);
      assert s[i..SpacesEnd(s, i)] == [s[i]] + s[i + 1..SpacesEnd(s, i)];
    }
  }

  lemma {:induction false} SpacesEndIs(s: string, i: nat, j: nat)
    requires i <= j <= |s| && AllSpace(s[i..j]) && (j < |s| ==> !IsSpace(s[j]))
    ensures SpacesEnd(s, i) == j
    decreases j - i
  {
    if i < j {
      assert s[i..j][0] == s[i];
      assert s[i + 1..j] == s[i..j][1..];
      SpacesEndIs(s, i + 1, j);
    }
  }

  /** Position of the first `c` at or after `i` in `s`, or `|s|` when there is none. */
  function FindFrom(s: string, i: nat, c: char): (j: nat)
    requires i <= |s|
    ensures i <= j <= |s|
    decreases |s| - i
  {
    if i == |s| || s[i] == c then i else FindFrom(s, i + 1, c)
  }

  lemma {:induction false} FindFromFirst(s: string, i: nat, c: char)
    requires i <= |s|
    ensures c !in s[i..FindFrom(s, i, c)]
    ensures FindFrom(s, i, c) < |s| ==> s[FindFrom(s, i, c)] == c
    decreases |s| - i
  {
    if i < |s| && s[i] != c {
      FindFromFirst(s, i + 1, c);
      assert s[i..FindFrom(s, i, c)] == [s[i]] + s[i + 1..FindFrom(s, i, c)];
    }
  }

  lemma {:induction false} FindFromIs(s: string, i: nat, c: char, j: nat)
    requires i <= j <= |s| && c !in s[i..j] && (j < |s| ==> s[j] == c)
    ensures FindFrom(s, i, c) == j
    decreases j - i
  {
    if i < j {
      assert s[i..j][0] == s[i];
      assert s[i + 1..j] == s[i..j][1..];
      FindFromIs(s, i + 1, c, j);
    }
  }

  /** Position of the first whitespace character at or after `i` in `s`, or `|s|`. */
  function SpaceFrom(s: string, i: nat): (j: nat)
    requires i <= |s|
    ensures i <= j <= |s|
    decreases |s| - i
  {
    if i == |s| || IsSpace(s[i]) then i else SpaceFrom(s, i + 1)
  }

  lemma {:induction false} SpaceFromFirst(s: string, i: nat)
    requires i <= |s|
    ensures NoSpace(s[i..SpaceFrom(s, i)])
    ensures SpaceFrom(s, i) < |s| ==> IsSpace(s[SpaceFrom(s, i)])
    decreases |s| - i
  {
    if i < |s| && !IsSpace(s[i]) {
      SpaceFromFirst(s, i + 1);
      assert s[i..SpaceFrom(s, i)] == [s[i]] + s[i + 1..SpaceFrom(s, i)];
    }
  }

  lemma {:induction false} SpaceFromIs(s: string, i: nat, j: nat)
    requires i <= j <= |s| && NoSpace(s[i..j]) && (j < |s| ==> IsSpace(s[j]))
    ensures SpaceFrom(s, i) == j
    decreases j - i
  {
    if i < j {
      assert s[i..j][0] == s[i];
      assert s[i + 1..j] == s[i..j][1..];
      SpaceFromIs(s, i + 1, j);
    }
  }

  /** Decimal value of a string of digits, most significant first. */
  function DecimalValue(s: string): nat
    requires AllDigits(s)
  {
    if s == [] then 0
    else DecimalValue(s[..|s| - 1]) * 10 + (s[|s| - 1] as int - '0' as int)
  }

  function Pow10(n: nat): nat { if n == 0 then 1 else 10 * Pow10(n - 1) }

  /** A string of `n` digits is worth less than 10 to the `n`. */
  lemma {:induction false} DecimalBound(s: string)
    requires AllDigits(s)
    ensures DecimalValue(s) < Pow10(|s|)
  {
    if s != [] {
      var p := s[..|s| - 1];
      DecimalBound(p);
      assert DecimalValue(p) <= Pow10(|p|) - 1;
      assert DecimalValue(p) * 10 <= Pow10(|p|) * 10 - 10;
    }
  }

  /** The value of one decimal digit. */
  function DigitValue(c: char): int { c as int - '0' as int }

  lemma DecimalOne(s: string)
    requires |s| == 1 && AllDigits(s)
    ensures DecimalValue(s) == DigitValue(s[0])
  {
    assert s[..0] == [];
  }

  lemma DecimalTwo(s: string)
    requires |s| == 2 && AllDigits(s)
    ensures DecimalValue(s) == 10 * DigitValue(s[0]) + DigitValue(s[1])
  {
    DecimalOne(s[..1]);
  }

  function ToLower(c: char): char
  {
    if 'A' <= c <= 'Z' then (c as int - 'A' as int + 'a' as int) as char else c
  }

  /** A later part of a stretch without `c` has no `c` either. */
  lemma NotInSuffix(s: string, c: char, lo: nat, mid: nat, hi: nat)
    requires lo <= mid <= hi <= |s| && c !in s[lo..hi]
    ensures c !in s[mid..hi]
  {
    assert forall k :: 0 <= k < hi - mid ==> s[mid..hi][k] == s[lo..hi][mid - lo + k];
  }

  /** An earlier part of a stretch of whitespace is whitespace. */
  lemma SpacePrefix(s: string, lo: nat, mid: nat, hi: nat)
    requires lo <= mid <= hi <= |s| && AllSpace(s[lo..hi])
    ensures AllSpace(s[lo..mid])
  {
    assert forall k :: 0 <= k < mid - lo ==> s[lo..mid][k] == s[lo..hi][k];
  }

  /** Splitting a suffix of `s` that is known to be `x + y`. */
  lemma Peel(s: string, k: nat, x: string, y: string)
    requires k <= |s| && s[k..] == x + y
    ensures k + |x| <= |s| && s[k..k + |x|] == x && s[k + |x|..] == y
  {
    assert s[k..][..|x|] == x;
    assert s[k..][|x|..] == y;
  }
}
