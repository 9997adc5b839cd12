/** Finding the inspection rows in the text extracted from a drawing
    (`detectTableLines`): the text is cut into lines, each line is trimmed,
    the lines that start with a number followed by white space are kept, and
    each kept line is cut into tokens at runs of white space. When no line
    qualifies, a fixed demo table of twelve rows stands in. */
module TableLines {
  import opened Chars

  /** A cell of a row as JavaScript holds it: parsed rows hold strings, the
      demo rows mix numbers and strings. */
  datatype Cell = Text(s: string) | Num(n: nat)

  type Row = seq<Cell>

  // ---------------------------------------------------------------------
  // Lines: `split(/\n/)`

  /** The text cut at every line feed; the pieces keep any carriage return. */
  function SplitLines(text: string): (lines: seq<string>)
    ensures |lines| >= 1
    ensures forall k :: 0 <= k < |lines| ==> '\n' !in lines[k]
    decreases |text|
  {
    var n := RunLength(text, 0, LineChar);
    RunLengthIsMaximal(text, 0, LineChar);
    if n == |text| then [text] else [text[..n]] + SplitLines(text[n + 1..])
  }

  /** The inverse of `SplitLines`: the pieces put back with line feeds. */
  function JoinLines(lines: seq<string>): string
    requires |lines| >= 1
  {
    if |lines| == 1 then lines[0] else lines[0] + "\n" + JoinLines(lines[1..])
  }

  /** Cutting a text into lines loses nothing. */
  lemma {:induction false} JoinSplitLines(text: string)
    ensures JoinLines(SplitLines(text)) == text
    decreases |text|
  {
    var n := RunLength(text, 0, LineChar);
    RunLengthIsMaximal(text, 0, LineChar);
    if n < |text| {
      var lines := SplitLines(text);
      var rest := text[n + 1..];
      assert lines == [text[..n]] + SplitLines(rest);
      assert lines[1..] == SplitLines(rest);
      JoinSplitLines(rest);
      assert JoinLines(lines) == text[..n] + "\n" + rest;
      assert text == text[..n] + "\n" + rest;
    }
  }

  // ---------------------------------------------------------------------
  // Trimming: `s.trim()`

  /** `s` without its trailing white space. */
  function TrimEnd(s: string): (t: string)
    ensures |t| <= |s| && t == s[..|t|]
    ensures AllSpace(s[|t|..])
    ensures t == [] || !IsSpace(t[|t| - 1])
  {
    if |s| > 0 && IsSpace(s[|s| - 1]) then
      var t := TrimEnd(s[..|s| - 1]);
      assert s[|t|..] == s[..|s| - 1][|t|..] + [s[|s| - 1]];
      t
    else s
  }

  /** `s` without its leading and trailing white space. */
  function Trim(s: string): (t: string)
    ensures Trimmed(t)
    ensures t == [] <==> AllSpace(s)
  {
    TrimEnd(TrimStart(s))
  }

  /** A string with no white space at either end. */
  predicate Trimmed(t: string) {
    t == [] || (!IsSpace(t[0]) && !IsSpace(t[|t| - 1]))
  }

  /** White space at the end of a trimmed string is all `TrimEnd` removes. */
  lemma {:induction false} TrimEndOfPadded(t: string, b: string)
    requires Trimmed(t) && AllSpace(b)
    ensures TrimEnd(t + b) == t
    decreases |b|
  {
    if |b| > 0 {
      assert (t + b)[..|t + b| - 1] == t + b[..|b| - 1];
      TrimEndOfPadded(t, b[..|b| - 1]);
    }
  }

  /** `Trim` removes exactly the white space around a trimmed string. */
  lemma TrimOfPadded(a: string, t: string, b: string)
    requires AllSpace(a) && Trimmed(t) && AllSpace(b)
    ensures Trim(a + t + b) == t
  {
    var s := a + t + b;
    if t == [] {
      assert s == a + b;
      RunLengthUnique(s, 0, Space, |s|);
    } else {
      assert s[|a|] == t[0];
      RunLengthUnique(s, 0, Space, |a|);
      assert s[|a|..] == t + b;
    }
    TrimEndOfPadded(t, b);
  }

  /** Trimming twice is trimming once. */
  lemma TrimIdempotent(s: string)
    ensures Trim(Trim(s)) == Trim(s)
  {
    var t := Trim(s);
    assert [] + t + [] == t;
    TrimOfPadded([], t, []);
  }

  // ---------------------------------------------------------------------
  // The row test: `s && /^\d+\s/.test(s)`

  /** The regular expression `^\d+\s`: one or more digits at the start,
      then a white space character. */
  ghost predicate MatchesRowStart(s: string) {
    exists k :: 1 <= k < |s| && DigitsIn(s, 0, k) && IsSpace(s[k])
  }

  /** The same test as one scan: the leading run of digits is not empty and
      is followed by white space. */
  predicate StartsWithNumberThenSpace(s: string) {
    var w := RunLength(s, 0, Digit);
    1 <= w < |s| && IsSpace(s[w])
  }

  /** The scan decides the regular expression. */
  lemma RowStartScan(s: string)
    ensures StartsWithNumberThenSpace(s) <==> MatchesRowStart(s)
  {
    var w := RunLength(s, 0, Digit);
    RunLengthIsMaximal(s, 0, Digit);
    if StartsWithNumberThenSpace(s) {
      assert DigitsIn(s, 0, w) && IsSpace(s[w]);
    }
    if MatchesRowStart(s) {
      var k :| 1 <= k < |s| && DigitsIn(s, 0, k) && IsSpace(s[k]);
      assert k == w;
    }
  }

  /** The filter of `detectTableLines`: a trimmed line is kept when it is not
      empty and passes the row test. */
  predicate Qualifies(line: string): (kept: bool)
    ensures kept ==> |line| >= 2 && IsDigit(line[0])
  {
    line != "" && StartsWithNumberThenSpace(line)
  }

  /** The truthiness test in front of the regular expression changes
      nothing: an empty line never matches. */
  lemma QualifiesIsRowStart(line: string)
    ensures Qualifies(line) <==> MatchesRowStart(line)
  {
    RowStartScan(line);
  }

  // ---------------------------------------------------------------------
  // Tokens: `l.split(/\s+/)`

  /** The pieces of `s` from position `i` on, cut at every run of white
      space. Like JavaScript, white space at either end yields an empty first
      or last piece. */
  function WordsFrom(s: string, i: nat): (words: seq<string>)
    requires i <= |s|
    ensures |words| >= 1
    decreases |s| - i
  {
    var q := RunLength(s, i, NonSpace);
    if i + q == |s| then [s[i..]]
    else
      var r := i + q + RunLength(s, i + q, Space);
      [s[i..i + q]] + WordsFrom(s, r)
  }

  /** `s.split(/\s+/)`. */
  function SplitWords(s: string): (words: seq<string>)
    ensures |words| >= 1
  {
    WordsFrom(s, 0)
  }

  /** A token as `split(/\s+/)` yields it from a trimmed line. */
  predicate IsWord(w: string) {
    w != "" && NoSpace(w)
  }

  /** Words put back with the separator `seps[k]` between word `k` and word
      `k + 1`. */
  function Interleave(words: seq<string>, seps: seq<string>): string
    requires |words| >= 1 && |seps| == |words| - 1
  {
    if |words| == 1 then words[0] else words[0] + seps[0] + Interleave(words[1..], seps[1..])
  }

  /** Separators as `split(/\s+/)` cuts at them: one between each two
      words, each a non-empty run of white space. */
  predicate AreSeparators(seps: seq<string>, count: nat) {
    |seps| + 1 == count && forall k :: 0 <= k < |seps| ==> seps[k] != "" && AllSpace(seps[k])
  }

  /** The last piece: no white space from `i` on. */
  lemma WordsFromLast(s: string, i: nat)
    requires i <= |s| && NoSpace(s[i..])
    ensures WordsFrom(s, i) == [s[i..]]
  {
    assert forall j :: i <= j < |s| ==> s[j] == s[i..][j - i];
    RunLengthUnique(s, i, NonSpace, |s| - i);
  }

  /** One piece of `n` characters followed by `m` white space characters and
      then a character that is not white space. */
  lemma WordsFromStep(s: string, i: nat, n: nat, m: nat)
    requires i + n + m < |s| && !IsSpace(s[i + n + m])
    requires forall j :: i <= j < i + n ==> !IsSpace(s[j])
    requires 0 < m && forall j :: i + n <= j < i + n + m ==> IsSpace(s[j])
    ensures WordsFrom(s, i) == [s[i..i + n]] + WordsFrom(s, i + n + m)
  {
    RunLengthUnique(s, i, NonSpace, n);
    RunLengthUnique(s, i + n, Space, m);
    SplitUnfold(s, i, n, i + n + m);
  }

  /** Where the three parts of `w + sep + rest` sit when it is found at
      position `i` of `s`. */
  lemma SliceLayout(s: string, i: nat, w: string, sep: string, rest: string)
    requires i <= |s| && s[i..] == w + sep + rest
    ensures i + |w| + |sep| + |rest| == |s|
    ensures forall j :: i <= j < i + |w| ==> s[j] == w[j - i]
    ensures forall j :: i + |w| <= j < i + |w| + |sep| ==> s[j] == sep[j - i - |w|]
    ensures s[i + |w| + |sep|..] == rest
  {
    var t := s[i..];
    var tail := sep + rest;
    assert t == w + tail;
    forall j | i <= j < i + |w|
      ensures s[j] == w[j - i]
    {
      assert s[j] == t[j - i];
    }
    forall j | i + |w| <= j < i + |w| + |sep|
      ensures s[j] == sep[j - i - |w|]
    {
      assert s[j] == t[j - i] == tail[j - i - |w|];
    }
    assert s[i + |w| + |sep|..] == t[|w| + |sep|..] == tail[|sep|..];
  }

  /** Where the first word and its separator sit in an interleaving of two
      or more words. */
  lemma InterleavedLayout(s: string, i: nat, words: seq<string>, seps: seq<string>)
    requires i <= |s| && |words| >= 2 && AreSeparators(seps, |words|)
    requires s[i..] == Interleave(words, seps)
    requires IsWord(words[0]) && IsWord(words[1])
    ensures i + |words[0]| + |seps[0]| < |s|
    ensures s[i..i + |words[0]|] == words[0]
    ensures forall j :: i <= j < i + |words[0]| ==> !IsSpace(s[j])
    ensures forall j :: i + |words[0]| <= j < i + |words[0]| + |seps[0]| ==> IsSpace(s[j])
    ensures !IsSpace(s[i + |words[0]| + |seps[0]|])
    ensures s[i + |words[0]| + |seps[0]|..] == Interleave(words[1..], seps[1..])
  {
    var w, sep := words[0], seps[0];
    var rest := Interleave(words[1..], seps[1..]);
    SliceLayout(s, i, w, sep, rest);
    assert s[i + |w| + |sep|] == rest[0] == words[1][0];
  }

  /** Non-empty words without white space, interleaved with white space
      separators at position `i` of `s`, are cut apart again from there. */
  lemma {:induction false} WordsFromInterleave(s: string, i: nat, words: seq<string>, seps: seq<string>)
    requires i <= |s| && |words| >= 1 && AreSeparators(seps, |words|)
    requires s[i..] == Interleave(words, seps)
    requires forall k :: 0 <= k < |words| ==> IsWord(words[k])
    ensures WordsFrom(s, i) == words
    decreases |words|
  {
    if |words| == 1 {
      assert s[i..] == words[0];
      WordsFromLast(s, i);
      assert words == [words[0]];
    } else {
      var n, m := |words[0]|, |seps[0]|;
      InterleavedLayout(s, i, words, seps);
      WordsFromStep(s, i, n, m);
      WordsFromInterleave(s, i + n + m, words[1..], seps[1..]);
      assert words == [words[0]] + words[1..];
    }
  }

  /** Non-empty words without white space, put together with any non-empty
      runs of white space between them, are recovered by the split. */
  lemma SplitInterleave(words: seq<string>, seps: seq<string>)
    requires |words| >= 1 && AreSeparators(seps, |words|)
    requires forall k :: 0 <= k < |words| ==> IsWord(words[k])
    ensures SplitWords(Interleave(words, seps)) == words
  {
    var s := Interleave(words, seps);
    assert s[0..] == s;
    WordsFromInterleave(s, 0, words, seps);
  }

  /** The runs of white space `WordsFrom(s, i)` cuts at, in order. */
  function SeparatorsFrom(s: string, i: nat): seq<string>
    requires i <= |s|
    decreases |s| - i
  {
    var q := RunLength(s, i, NonSpace);
    if i + q == |s| then []
    else
      var r := i + q + RunLength(s, i + q, Space);
      [s[i + q..r]] + SeparatorsFrom(s, r)
  }

  /** One step of the split past position `i`: the piece up to the next
      white space, the run of white space after it, and the rest. */
  lemma SplitStep(s: string, i: nat, q: nat, r: nat)
    requires i < |s| && !IsSpace(s[|s| - 1])
    requires q == RunLength(s, i, NonSpace) && i + q < |s|
    requires r == i + q + RunLength(s, i + q, Space)
    ensures r < |s| && !IsSpace(s[r])
    ensures WordsFrom(s, i) == [s[i..i + q]] + WordsFrom(s, r)
    ensures SeparatorsFrom(s, i) == [s[i + q..r]] + SeparatorsFrom(s, r)
    ensures s[i + q..r] != "" && AllSpace(s[i + q..r])
  {
    SplitUnfold(s, i, q, r);
    RunLengthIsMaximal(s, i, NonSpace);
    RunLengthIsMaximal(s, i + q, Space);
  }

  /** The definitions of `WordsFrom` and `SeparatorsFrom` taken one step. */
  lemma SplitUnfold(s: string, i: nat, q: nat, r: nat)
    requires i <= |s|
    requires q == RunLength(s, i, NonSpace) && i + q < |s|
    requires r == i + q + RunLength(s, i + q, Space)
    ensures WordsFrom(s, i) == [s[i..i + q]] + WordsFrom(s, r)
    ensures SeparatorsFrom(s, i) == [s[i + q..r]] + SeparatorsFrom(s, r)
  {
  }

  /** The split cuts at one run of white space between each two pieces. */
  lemma {:induction false} SeparatorsFromAreRuns(s: string, i: nat)
    requires i < |s| && !IsSpace(s[|s| - 1])
    ensures AreSeparators(SeparatorsFrom(s, i), |WordsFrom(s, i)|)
    decreases |s| - i
  {
    var q := RunLength(s, i, NonSpace);
    if i + q < |s| {
      var r := i + q + RunLength(s, i + q, Space);
      SplitStep(s, i, q, r);
      SeparatorsFromAreRuns(s, r);
      var seps := SeparatorsFrom(s, i);
      assert forall k :: 1 <= k < |seps| ==> seps[k] == SeparatorsFrom(s, r)[k - 1];
    }
  }

  /** From a non-space position on, a string that does not end in white
      space is its pieces put back with the runs of white space between
      them. */
  lemma {:induction false} InterleaveWordsFrom(s: string, i: nat)
    requires i < |s| && !IsSpace(s[i]) && !IsSpace(s[|s| - 1])
    ensures AreSeparators(SeparatorsFrom(s, i), |WordsFrom(s, i)|)
    ensures Interleave(WordsFrom(s, i), SeparatorsFrom(s, i)) == s[i..]
    decreases |s| - i
  {
    SeparatorsFromAreRuns(s, i);
    var q := RunLength(s, i, NonSpace);
    if i + q == |s| {
      assert WordsFrom(s, i) == [s[i..]];
    } else {
      var r := i + q + RunLength(s, i + q, Space);
      SplitStep(s, i, q, r);
      InterleaveWordsFrom(s, r);
      var words, seps := WordsFrom(s, i), SeparatorsFrom(s, i);
      var piece, sep := s[i..i + q], s[i + q..r];
      var restWords, restSeps := WordsFrom(s, r), SeparatorsFrom(s, r);
      assert words == [piece] + restWords && seps == [sep] + restSeps;
      assert words[1..] == restWords && seps[1..] == restSeps;
      assert Interleave(words, seps) == piece + sep + Interleave(restWords, restSeps);
      SliceThree(s, i, i + q, r);
    }
  }

  /** A suffix cut in three. */
  lemma SliceThree(s: string, i: nat, j: nat, k: nat)
    requires i <= j <= k <= |s|
    ensures s[i..] == s[i..j] + s[j..k] + s[k..]
  {
    assert s[i..] == s[i..k] + s[k..];
    assert s[i..k] == s[i..j] + s[j..k];
  }

  /** A non-empty trimmed line is its tokens put back with the runs of white
      space between them: the split loses only the separators. */
  lemma InterleaveSplit(s: string)
    requires s != [] && Trimmed(s)
    ensures AreSeparators(SeparatorsFrom(s, 0), |SplitWords(s)|)
    ensures Interleave(SplitWords(s), SeparatorsFrom(s, 0)) == s
  {
    InterleaveWordsFrom(s, 0);
    assert s[0..] == s;
  }

  /** From a non-space position on, a string that does not end in white
      space yields no empty pieces. */
  lemma {:induction false} WordsFromTrimmed(s: string, i: nat)
    requires i < |s| && !IsSpace(s[i]) && !IsSpace(s[|s| - 1])
    ensures forall k :: 0 <= k < |WordsFrom(s, i)| ==> WordsFrom(s, i)[k] != ""
    decreases |s| - i
  {
    var q := RunLength(s, i, NonSpace);
    RunLengthIsMaximal(s, i, NonSpace);
    if i + q < |s| {
      var r := i + q + RunLength(s, i + q, Space);
      RunLengthIsMaximal(s, i + q, Space);
      assert r < |s|;
      WordsFromTrimmed(s, r);
    }
  }

  /** No piece holds white space. */
  lemma {:induction false} WordsFromHaveNoSpace(s: string, i: nat)
    requires i <= |s|
    ensures forall k :: 0 <= k < |WordsFrom(s, i)| ==> NoSpace(WordsFrom(s, i)[k])
    decreases |s| - i
  {
    var q := RunLength(s, i, NonSpace);
    RunLengthIsMaximal(s, i, NonSpace);
    if i + q < |s| {
      var r := i + q + RunLength(s, i + q, Space);
      RunLengthIsMaximal(s, i + q, Space);
      WordsFromHaveNoSpace(s, r);
      assert NoSpace(s[i..i + q]);
    } else {
      assert NoSpace(s[i..]);
    }
  }

  /** A trimmed line yields no empty tokens. */
  lemma SplitTrimmedWords(s: string)
    requires s != [] && Trimmed(s)
    ensures forall k :: 0 <= k < |SplitWords(s)| ==> SplitWords(s)[k] != ""
  {
    WordsFromTrimmed(s, 0);
  }

  /** A line that passes the row test starts with its number as a token of
      its own, and has at least one more token. */
  lemma FirstTokenIsNumber(s: string)
    requires Qualifies(s) && Trimmed(s)
    ensures |SplitWords(s)| >= 2
    ensures SplitWords(s)[0] == s[..RunLength(s, 0, Digit)]
  {
    var w := RunLength(s, 0, Digit);
    RunLengthIsMaximal(s, 0, Digit);
    RunLengthUnique(s, 0, NonSpace, w);
  }

  // ---------------------------------------------------------------------
  // The pipeline: split, trim, filter, tokenize

  /** Every line trimmed (`map((s) => s.trim())`). */
  function TrimAll(lines: seq<string>): (trimmed: seq<string>)
    ensures |trimmed| == |lines|
    ensures forall k :: 0 <= k < |lines| ==> trimmed[k] == Trim(lines[k])
  {
    seq(|lines|, k requires 0 <= k < |lines| => Trim(lines[k]))
  }

  /** The lines that pass the row test, in their order
      (`filter((s) => s && /^\d+\s/.test(s))`). */
  function KeepRowLines(lines: seq<string>): (kept: seq<string>)
    ensures |kept| <= |lines|
    ensures forall k :: 0 <= k < |kept| ==> Qualifies(kept[k]) && kept[k] in lines
  {
    if |lines| == 0 then []
    else
      var last := lines[|lines| - 1];
      KeepRowLines(lines[..|lines| - 1]) + (if Qualifies(last) then [last] else [])
  }

  /** The positions of the lines that pass the row test, in increasing order:
      an independent description of what the filter keeps. */
  function RowIndices(lines: seq<string>): (idx: seq<nat>)
    ensures forall j :: 0 <= j < |idx| ==> idx[j] < |lines| && Qualifies(lines[idx[j]])
    ensures forall j, j' :: 0 <= j < j' < |idx| ==> idx[j] < idx[j']
    ensures forall k :: 0 <= k < |lines| && Qualifies(lines[k]) ==> k in idx
  {
    if |lines| == 0 then []
    else
      var n := |lines| - 1;
      var prefix := lines[..n];
      var idx := RowIndices(prefix);
      assert forall k :: 0 <= k < n && Qualifies(lines[k]) ==> k in idx by {
        forall k | 0 <= k < n && Qualifies(lines[k])
          ensures k in idx
        {
          assert prefix[k] == lines[k];
        }
      }
      idx + (if Qualifies(lines[n]) then [n] else [])
  }

  /** The filter keeps exactly the lines at `RowIndices`, in that order. */
  lemma {:induction false} KeptLinesAreRowLines(lines: seq<string>)
    ensures |KeepRowLines(lines)| == |RowIndices(lines)|
    ensures forall j :: 0 <= j < |RowIndices(lines)| ==>
      KeepRowLines(lines)[j] == lines[RowIndices(lines)[j]]
  {
    if |lines| > 0 {
      var n := |lines| - 1;
      KeptLinesAreRowLines(lines[..n]);
    }
  }

  /** No line is kept exactly when no line passes the row test. */
  lemma KeepNoneIffNoneQualifies(lines: seq<string>)
    ensures KeepRowLines(lines) == [] <==> forall k :: 0 <= k < |lines| ==> !Qualifies(lines[k])
  {
    KeptLinesAreRowLines(lines);
    if exists k :: 0 <= k < |lines| && Qualifies(lines[k]) {
      var k :| 0 <= k < |lines| && Qualifies(lines[k]);
      assert k in RowIndices(lines);
    }
  }

  /** The tokens of a kept line as a row of text cells
      (`l.split(/\s+/)`). */
  function Tokenize(line: string): (row: Row)
    ensures |row| == |SplitWords(line)|
    ensures forall k :: 0 <= k < |row| ==> row[k] == Text(SplitWords(line)[k])
  {
    var words := SplitWords(line);
    seq(|words|, k requires 0 <= k < |words| => Text(words[k]))
  }

  // ---------------------------------------------------------------------
  // The demo fallback

  /** Row `i` of the demo table: serial `i`, press `PW`, selection `i`,
      reference `B`, X `150 + 10 i`, Y/Z `100 + i`, diameter 13. */
  function DemoRow(i: nat): (row: Row)
    ensures |row| == 7
  {
    [Num(i), Text("PW"), Num(i), Text("B"), Num(150 + i * 10), Num(100 + i), Num(13)]
  }

  /** The twelve demo rows, numbered from 1. */
  ghost predicate IsDemoTable(rows: seq<Row>) {
    |rows| == 12 && forall k :: 0 <= k < 12 ==> rows[k] == DemoRow(k + 1)
  }

  /** The demo table built the way the source does: a counting loop that
      pushes one row per pass. */
  method BuildDemoTable() returns (demo: seq<Row>)
    ensures IsDemoTable(demo)
  {
    demo := [];
    for i := 1 to 13
      invariant |demo| == i - 1
      invariant forall k :: 0 <= k < i - 1 ==> demo[k] == DemoRow(k + 1)
    {
      demo := demo + [DemoRow(i)];
    }
  }

  /** The demo table as a value. */
  function DemoTable(): (rows: seq<Row>)
    ensures IsDemoTable(rows)
  {
    seq(12, k requires 0 <= k < 12 => DemoRow(k + 1))
  }

  // ---------------------------------------------------------------------
  // detectTableLines

  /** The lines of `text`, each trimmed. */
  function TrimmedLines(text: string): (lines: seq<string>)
    ensures forall k :: 0 <= k < |lines| ==> Trimmed(lines[k])
  {
    TrimAll(SplitLines(text))
  }

  /** The trimmed lines of `text` that pass the row test. */
  function RowLines(text: string): seq<string> {
    KeepRowLines(TrimmedLines(text))
  }

  /** The rows `detectTableLines` returns for `text`. */
  function TableRows(text: string): (rows: seq<Row>)
    ensures RowLines(text) == [] ==> IsDemoTable(rows)
    ensures RowLines(text) != [] ==>
      |rows| == |RowLines(text)| &&
      forall j :: 0 <= j < |rows| ==> rows[j] == Tokenize(RowLines(text)[j])
  {
    var kept := RowLines(text);
    if |kept| == 0 then DemoTable()
    else seq(|kept|, j requires 0 <= j < |kept| => Tokenize(kept[j]))
  }

  /** `detectTableLines`: the rows of the kept lines, or the demo table built
      by its loop when no line is kept. */
  method DetectTableLines(text: string) returns (rows: seq<Row>)
    ensures rows == TableRows(text)
  {
    var kept := KeepRowLines(TrimAll(SplitLines(text)));
    assert kept == RowLines(text);
    if |kept| == 0 {
      rows := BuildDemoTable();
      assert rows == DemoTable();
    } else {
      rows := seq(|kept|, j requires 0 <= j < |kept| => Tokenize(kept[j]));
    }
  }

  /** The demo table stands in exactly when no line is kept. */
  lemma DemoIffNothingKept(text: string)
    ensures IsDemoTable(TableRows(text)) <==> RowLines(text) == []
  {
    if RowLines(text) != [] {
      assert TableRows(text)[0] == Tokenize(RowLines(text)[0]);
      assert TableRows(text)[0][0].Text?;
      assert DemoRow(1)[0] == Num(1);
    }
  }

  /** The demo table stands in exactly when no trimmed line of the text
      passes the row test. */
  lemma DemoIffNoRowLine(text: string)
    ensures IsDemoTable(TableRows(text)) <==>
      forall k :: 0 <= k < |TrimmedLines(text)| ==> !Qualifies(TrimmedLines(text)[k])
  {
    KeepNoneIffNoneQualifies(TrimmedLines(text));
    DemoIffNothingKept(text);
  }

  /** Parsed rows come one per qualifying line, in the order of the lines:
      row `j` holds the tokens of the `j`-th trimmed line that passes the row
      test. */
  lemma ParsedRowsFollowLines(text: string)
    requires RowLines(text) != []
    ensures |TableRows(text)| == |RowIndices(TrimmedLines(text))|
    ensures forall j :: 0 <= j < |TableRows(text)| ==>
      TableRows(text)[j] == Tokenize(TrimmedLines(text)[RowIndices(TrimmedLines(text))[j]])
  {
    KeptLinesAreRowLines(TrimmedLines(text));
  }

  /** The tokens of a line that passes the row test: at least two, the first
      one the line's leading number, none empty, none holding white space. */
  lemma RowLineTokens(line: string)
    requires Qualifies(line) && Trimmed(line)
    ensures |Tokenize(line)| >= 2
    ensures Tokenize(line)[0] == Text(line[..RunLength(line, 0, Digit)])
    ensures AllDigits(Tokenize(line)[0].s)
    ensures forall k :: 0 <= k < |Tokenize(line)| ==>
      Tokenize(line)[k].Text? && Tokenize(line)[k].s != "" && NoSpace(Tokenize(line)[k].s)
  {
    FirstTokenIsNumber(line);
    SplitTrimmedWords(line);
    WordsFromHaveNoSpace(line, 0);
    RunLengthIsMaximal(line, 0, Digit);
  }

  /** Every kept line is trimmed and passes the row test. */
  lemma RowLineIsTrimmed(text: string, j: nat)
    requires j < |RowLines(text)|
    ensures Qualifies(RowLines(text)[j]) && Trimmed(RowLines(text)[j])
  {
    var trimmed := TrimmedLines(text);
    assert RowLines(text)[j] in trimmed;
  }

  /** Every parsed row has the shape of a table row: two or more non-empty
      text tokens without white space, the first one all digits. */
  lemma ParsedRowShape(text: string, j: nat)
    requires RowLines(text) != [] && j < |TableRows(text)|
    ensures |TableRows(text)[j]| >= 2
    ensures TableRows(text)[j][0].Text? && TableRows(text)[j][0].s != ""
    ensures AllDigits(TableRows(text)[j][0].s)
    ensures forall k :: 0 <= k < |TableRows(text)[j]| ==>
      TableRows(text)[j][k].Text? && TableRows(text)[j][k].s != "" && NoSpace(TableRows(text)[j][k].s)
  {
    var line := RowLines(text)[j];
    RowLineIsTrimmed(text, j);
    RowLineTokens(line);
    assert TableRows(text)[j] == Tokenize(line);
  }
}
