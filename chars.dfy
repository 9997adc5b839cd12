/** Character classes and small facts about strings of digits, shared by the
    table-line tokenizer and the numeric field reader. */
module Chars {

  /** `\d` of a JavaScript regular expression. */
  predicate IsDigit(c: char) {
    '0' <= c <= '9'
  }

  /** The ASCII part of ECMAScript's WhiteSpace and LineTerminator characters:
      space, tab, line feed, vertical tab, form feed and carriage return. This
      is what `\s`, `String.prototype.trim` and `parseFloat` skip here. */
  predicate IsSpace(c: char) {
    c == ' ' || c == '\t' || c == '\n' || c == '\U{B}' || c == '\U{C}' || c == '\r'
  }

  /** Every character of `s` from `i` up to (not including) `j` is a digit. */
  predicate DigitsIn(s: string, i: nat, j: nat)
    requires i <= j <= |s|
  {
    forall k :: i <= k < j ==> IsDigit(s[k])
  }

  predicate AllDigits(s: string) {
    DigitsIn(s, 0, |s|)
  }

  predicate AllSpace(s: string) {
    forall i :: 0 <= i < |s| ==> IsSpace(s[i])
  }

  predicate NoSpace(s: string) {
    forall i :: 0 <= i < |s| ==> !IsSpace(s[i])
  }

  /** The classes of characters whose maximal runs the scanners look for. */
  datatype CharClass = Digit | Space | NonSpace | LineChar

  predicate InClass(c: char, k: CharClass) {
    match k
    case Digit => IsDigit(c)
    case Space => IsSpace(c)
    case NonSpace => !IsSpace(c)
    case LineChar => c != '\n'
  }

  /** Length of the longest run of characters of class `k` that starts at `i`. */
  function RunLength(s: string, i: nat, k: CharClass): (n: nat)
    requires i <= |s|
    ensures i + n <= |s|
    decreases |s| - i
  {
    if i < |s| && InClass(s[i], k) then 1 + RunLength(s, i + 1, k) else 0
  }

  /** The run is of class `k` throughout and cannot be extended. */
  lemma {:induction false} RunLengthIsMaximal(s: string, i: nat, k: CharClass)
    requires i <= |s|
    ensures forall j :: i <= j < i + RunLength(s, i, k) ==> InClass(s[j], k)
    ensures i + RunLength(s, i, k) == |s| || !InClass(s[i + RunLength(s, i, k)], k)
    decreases |s| - i
  {
    if i < |s| && InClass(s[i], k) {
      RunLengthIsMaximal(s, i + 1, k);
    }
  }

  /** A run is determined by its two defining properties. */
  lemma {:induction false} RunLengthUnique(s: string, i: nat, k: CharClass, n: nat)
    requires i + n <= |s|
    requires forall j :: i <= j < i + n ==> InClass(s[j], k)
    requires i + n == |s| || !InClass(s[i + n], k)
    ensures RunLength(s, i, k) == n
    decreases n
  {
    if n > 0 {
      RunLengthUnique(s, i + 1, k, n - 1);
    }
  }

  /** Leading white space removed, as `String.prototype.trimStart` and the
      first step of `parseFloat` do. */
  function TrimStart(s: string): (t: string)
    ensures |t| <= |s|
    ensures AllSpace(s[..|s| - |t|])
    ensures t == [] || !IsSpace(t[0])
  {
    RunLengthIsMaximal(s, 0, Space);
    s[RunLength(s, 0, Space)..]
  }

  /** `TrimStart` removes the leading white space and nothing else: what it
      returns is the rest of the string, and the removed part is all white
      space. */
  lemma TrimStartKeepsRest(s: string)
    ensures s == s[..|s| - |TrimStart(s)|] + TrimStart(s)
    ensures AllSpace(s[..|s| - |TrimStart(s)|])
    ensures TrimStart(s) == [] || !IsSpace(TrimStart(s)[0])
  {
    var n := RunLength(s, 0, Space);
    assert TrimStart(s) == s[n..];
    assert s == s[..n] + s[n..];
  }

  function DigitValue(c: char): nat
    requires IsDigit(c)
  {
    c as int - '0' as int
  }

  function DigitChar(d: nat): (c: char)
    requires d < 10
    ensures IsDigit(c) && DigitValue(c) == d
  {
    ('0' as int + d) as char
  }

  /** The value of the digits of `s` from `i` up to `j`, most significant
      first. */
  function DigitsValue(s: string, i: nat, j: nat): nat
    requires i <= j <= |s| && DigitsIn(s, i, j)
    decreases j
  {
    if j == i then 0 else DigitsValue(s, i, j - 1) * 10 + DigitValue(s[j - 1])
  }

  /** The value of a stretch of digits depends only on those digits. */
  lemma {:induction false} DigitsValueOfSame(s: string, t: string, i: nat, j: nat)
    requires i <= j <= |s| && j <= |t| && DigitsIn(s, i, j)
    requires forall k :: i <= k < j ==> s[k] == t[k]
    ensures DigitsIn(t, i, j) && DigitsValue(t, i, j) == DigitsValue(s, i, j)
    decreases j
  {
    if j > i {
      DigitsValueOfSame(s, t, i, j - 1);
    }
  }

  /** `String(n)` for a non-negative integer: its decimal digits without
      leading zeros. */
  function NatToDecimal(n: nat): (s: string)
    ensures |s| >= 1 && AllDigits(s)
    ensures DigitsValue(s, 0, |s|) == n
    ensures |s| > 1 ==> s[0] != '0'
  {
    if n < 10 then [DigitChar(n)]
    else
      var p := NatToDecimal(n / 10);
      var s := p + [DigitChar(n % 10)];
      DigitsValueOfSame(p, s, 0, |p|);
      s
  }
}
