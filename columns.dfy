/** The read-only columns `buildMainTable` fills from each detected row:
    serial number, press, selection id, reference, X position, specified Y or
    Z, specified diameter. Every filled value goes through `val || ""`, so a
    falsy token (missing, empty, the number 0) leaves the cell blank. */
module Columns {
  import opened Wrappers
  import opened Chars
  import opened NumberField
  import opened TableLines

  /** The seven prefilled cells of a table row, as the text their inputs
      hold. */
  datatype SpecCells = SpecCells(
    slNo: string, press: string, selId: string, refTag: string,
    xAxis: string, specYZ: string, specDia: string)

  /** The text an input shows for a token after `token || ""`: a string as
      it is, a number in decimal, and the number 0, which is falsy, as
      nothing. */
  function CellText(c: Cell): (t: string)
    ensures c.Text? ==> t == c.s
    ensures c.Num? ==> (t == "" <==> c.n == 0) && AllDigits(t)
  {
    match c
    case Text(s) => s
    case Num(n) => if n == 0 then "" else NatToDecimal(n)
  }

  /** A text token shows as itself; a number token reads back as its value,
      except 0, which shows as a blank and so reads as missing. */
  lemma CellTextReadsBack(c: Cell)
    ensures c.Text? ==> CellText(c) == c.s
    ensures c.Num? ==> ReadField(CellText(c)) == if c.n == 0 then None else Some(c.n as real)
  {
    if c.Num? && c.n != 0 {
      ReadFieldOfDecimal(c.n);
    }
  }

  /** `tokens[k] || ""`: the text of token `k`, blank when there is none. */
  function TokenOrBlank(tokens: Row, k: nat): (s: string)
    ensures k >= |tokens| ==> s == ""
    ensures k < |tokens| ==> s == CellText(tokens[k])
  {
    if k < |tokens| then CellText(tokens[k]) else ""
  }

  /** The prefilled cells of row `i` (counted from 0) with tokens `tokens`:
      the serial number is the row's position plus one, whatever token 0
      holds, and tokens 1 to 6 fill the other six cells in order. */
  function MapRow(tokens: Row, i: nat): (cells: SpecCells)
    ensures cells.slNo == NatToDecimal(i + 1)
    ensures cells.press == (if |tokens| > 1 then CellText(tokens[1]) else "")
    ensures cells.selId == (if |tokens| > 2 then CellText(tokens[2]) else "")
    ensures cells.refTag == (if |tokens| > 3 then CellText(tokens[3]) else "")
    ensures cells.xAxis == (if |tokens| > 4 then CellText(tokens[4]) else "")
    ensures cells.specYZ == (if |tokens| > 5 then CellText(tokens[5]) else "")
    ensures cells.specDia == (if |tokens| > 6 then CellText(tokens[6]) else "")
  {
    SpecCells(
      NatToDecimal(i + 1),
      TokenOrBlank(tokens, 1), TokenOrBlank(tokens, 2), TokenOrBlank(tokens, 3),
      TokenOrBlank(tokens, 4), TokenOrBlank(tokens, 5), TokenOrBlank(tokens, 6))
  }

  /** The prefilled part of the whole table, one entry per detected row. */
  function MainTable(rows: seq<Row>): (table: seq<SpecCells>)
    ensures |table| == |rows|
    ensures forall i :: 0 <= i < |rows| ==> table[i] == MapRow(rows[i], i)
  {
    seq(|rows|, i requires 0 <= i < |rows| => MapRow(rows[i], i))
  }

  /** The serial number cell reads as the row's position plus one. */
  lemma SerialReadsPosition(tokens: Row, i: nat)
    ensures ReadField(MapRow(tokens, i).slNo) == Some((i + 1) as real)
  {
    ReadFieldOfDecimal(i + 1);
  }

  /** Token 0 is never shown: two rows that differ only there fill the same
      cells. */
  lemma SerialIgnoresFirstToken(tokens: Row, other: Cell, i: nat)
    requires |tokens| >= 1
    ensures MapRow(tokens[0 := other], i) == MapRow(tokens, i)
  {
  }

  /** Tokens after the seventh are dropped. */
  lemma ExtraTokensIgnored(tokens: Row, extra: Row, i: nat)
    requires |tokens| >= 7
    ensures MapRow(tokens + extra, i) == MapRow(tokens, i)
  {
    var t := tokens + extra;
    assert forall k :: 1 <= k <= 6 ==> t[k] == tokens[k];
  }

  /** A short row leaves its last cells blank: with `n` tokens, the cells
      from position `n` on are empty. */
  lemma ShortRowBlank(tokens: Row, i: nat)
    requires |tokens| <= 6
    ensures MapRow(tokens, i).specDia == ""
    ensures |tokens| <= 5 ==> MapRow(tokens, i).specYZ == ""
    ensures |tokens| <= 4 ==> MapRow(tokens, i).xAxis == ""
  {
  }

  /** A row parsed from a line shows the line's tokens 1 to 6 verbatim in
      the six cells after the serial number; the line's own number is not
      shown. */
  lemma ParsedRowColumns(line: string, i: nat)
    requires Qualifies(line) && Trimmed(line)
    ensures |SplitWords(line)| >= 2
    ensures var words := SplitWords(line);
      var cells := MapRow(Tokenize(line), i);
      && cells.press == words[1]
      && cells.selId == (if |words| > 2 then words[2] else "")
      && cells.refTag == (if |words| > 3 then words[3] else "")
      && cells.xAxis == (if |words| > 4 then words[4] else "")
      && cells.specYZ == (if |words| > 5 then words[5] else "")
      && cells.specDia == (if |words| > 6 then words[6] else "")
  {
    RowLineTokens(line);
  }

  /** Demo row `j` (counted from 1) reads back as the numbers it was built
      from: selection `j`, X `150 + 10 j`, Y/Z `100 + j`, diameter 13. */
  lemma DemoRowColumns(j: nat)
    requires 1 <= j
    ensures var cells := MapRow(DemoRow(j), j - 1);
      && cells.press == "PW" && cells.refTag == "B"
      && ReadField(cells.selId) == Some(j as real)
      && ReadField(cells.xAxis) == Some((150 + j * 10) as real)
      && ReadField(cells.specYZ) == Some((100 + j) as real)
      && ReadField(cells.specDia) == Some(13.0)
  {
    var row := DemoRow(j);
    var cells := MapRow(row, j - 1);
    assert cells.selId == CellText(Num(j));
    CellTextReadsBack(Num(j));
    assert cells.xAxis == CellText(Num(150 + j * 10));
    CellTextReadsBack(Num(150 + j * 10));
    assert cells.specYZ == CellText(Num(100 + j));
    CellTextReadsBack(Num(100 + j));
    assert cells.specDia == CellText(Num(13));
    CellTextReadsBack(Num(13));
  }
}
