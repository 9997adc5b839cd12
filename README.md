# Press/hole inspection sheet: table detection and row verdict

This project is a Dafny model of the data path in `script.js`. The path
starts from the text pulled out of an inspection drawing and ends at the
OK/NOK verdict of each inspection row. It has four parts:

- **Finding the table rows** (`detectTableLines`). The text is cut at line
  feeds and every line is trimmed. A line is kept when it is non-empty and
  starts with one or more digits followed by white space. Each kept line is
  cut into tokens at runs of white space. When no line is kept, a fixed demo
  table of twelve rows stands in. The loop that builds it is modelled as a
  method with a `for` loop (`TableLines.BuildDemoTable`).
- **Filling the prefilled columns** (the cell mapping of `buildMainTable`).
  The serial number is the row's position plus one. Press, selection id,
  reference, X position, specified Y/Z and specified diameter take tokens 1
  to 6. Every filled value passes through `val || ""`, so a missing or falsy
  token leaves the cell blank.
- **Reading a numeric field** (`parseFloat(value || NaN)` in `recalcRow`).
  An empty field is missing (NaN, written `None`). Any other field is read
  like ECMAScript `parseFloat` (section 19.2.4 of ECMA-262). Leading white
  space is skipped, then the longest decimal prefix is read: an optional
  sign, then digits with an optional point and fraction, or a point and
  digits. `"9x12"` reads as 9 and `"abc"` reads as missing.
- **Checking a row** (`recalcRow`).
  - The offset is actual Y/Z minus specified Y/Z. It exists only when both
    are numbers.
  - The verdict looks only at the diameters. When both are numbers, it is OK
    exactly when the actual diameter lies between 0.2 below and 0.5 above the
    specified one. When either is missing, it is OK.
  - The pure decision is `RowCheck.Reconcile`. The class
    `RowCheck.InspectionRow` models one table row: the three inputs a user
    types into, and the offset and result cells that `recalcRow` overwrites
    on every input event. The part of `recalcRow` that updates its locals
    `offset` and `ok` is the method `RowCheck.Decide`.

`script.js` has no slot handling, no position-dependent offset band and no
third "undetermined" verdict, and neither does the model. The verdict has two
values, the offset is never judged, and the diameter band is the fixed
`[-0.2, +0.5]`.

Modules and files:

- `wrappers.dfy`: `Option`.
- `chars.dfy`: character classes, maximal runs, and decimal digit strings (`NatToDecimal`, which is `String(n)` for a natural number).
- `number_field.dfy`: the `parseFloat` subset.
- `table_lines.dfy`: `detectTableLines`.
- `columns.dfy`: the cell mapping.
- `row_check.dfy`: `recalcRow`.

## Model

| member | source | states |
|---|---|---|
| TableLines.SplitLines | script.js:125-126 | cuts the text at every line feed into one or more pieces, none holding a line feed |
| TableLines.JoinSplitLines | script.js:125-126 | cutting into lines loses nothing: joining the pieces with line feeds gives back the text |
| TableLines.Trim | script.js:127 | the trimmed line has no white space at either end, and is empty exactly when the line was all white space |
| TableLines.TrimOfPadded | script.js:127 | trimming removes exactly the white space around a string that has none at its ends |
| TableLines.TrimIdempotent | script.js:127 | trimming a second time changes nothing |
| TableLines.RowStartScan | script.js:128 | the one-pass digit-run test decides `^\d+\s`, in both directions |
| TableLines.Qualifies | script.js:128 | a kept line has at least two characters and starts with a digit |
| TableLines.QualifiesIsRowStart | script.js:128 | the truthiness test before the regular expression changes nothing: a trimmed line is kept exactly when it matches `^\d+\s` |
| TableLines.TrimAll | script.js:127 | every line is trimmed, and the count stays the same |
| TableLines.TrimmedLines | script.js:125-127 | every line of the text after the split and trim has no white space at its ends |
| TableLines.KeepRowLines | script.js:128 | the filter keeps no more lines than it gets, and each kept line passes the row test and is one of the input lines |
| TableLines.RowIndices | script.js:128 | independent description of the filter: the strictly increasing positions of exactly the lines that pass the row test |
| TableLines.KeptLinesAreRowLines | script.js:128 | the filter keeps exactly the lines at those positions, in their order, and nothing else |
| TableLines.KeepNoneIffNoneQualifies | script.js:128 | nothing is kept exactly when no line passes the row test |
| TableLines.SplitWords | script.js:146 | `split(/\s+/)` always yields at least one piece |
| TableLines.SplitInterleave | script.js:146 | non-empty words without white space, put together with any non-empty runs of white space between them, split back into the same words |
| TableLines.InterleaveSplit | script.js:146 | a non-empty trimmed line is its tokens put back with the runs of white space the split cut at, so the split loses only those runs |
| TableLines.WordsFromHaveNoSpace | script.js:146 | no piece of the split holds white space |
| TableLines.SplitTrimmedWords | script.js:127-146 | a non-empty trimmed line splits into non-empty pieces only |
| TableLines.FirstTokenIsNumber | script.js:128-146 | a kept line has at least two tokens, and the first is its leading digit run |
| TableLines.Tokenize | script.js:146 | a kept line becomes one text cell per piece of its split, in order |
| TableLines.DemoRow | script.js:134-142 | a demo row has seven cells |
| TableLines.BuildDemoTable | script.js:130-144 | the counting loop pushes exactly twelve rows, and row i (from 1) is `[i, "PW", i, "B", 150 + 10 i, 100 + i, 13]` |
| TableLines.DemoTable | script.js:132-143 | the demo table as a value has the same twelve rows |
| TableLines.TableRows | script.js:124-147 | the demo table when no line is kept; otherwise one row per kept line, holding that line's tokens, in order |
| TableLines.DetectTableLines | script.js:124-147 | the method returns exactly the rows `TableRows` describes, building the fallback with the loop |
| TableLines.DemoIffNothingKept | script.js:130-146 | the result is the demo table exactly when no line is kept (a parsed row starts with a text token, a demo row with a number) |
| TableLines.DemoIffNoRowLine | script.js:125-130 | the demo table stands in exactly when no trimmed line of the text passes the row test |
| TableLines.ParsedRowsFollowLines | script.js:125-146 | with any line kept, row j holds the tokens of the j-th trimmed line that passes the row test, with one row per such line |
| TableLines.RowLineTokens | script.js:127-146 | a kept line has at least two tokens: the first is its all-digit number, and none is empty or holds white space |
| TableLines.RowLineIsTrimmed | script.js:125-128 | every kept line is trimmed and passes the row test |
| TableLines.ParsedRowShape | script.js:124-147 | every parsed row has two or more non-empty text tokens without white space, the first all digits |
| Chars.TrimStart | script.js:326-329 | the result is no longer than the input, what is cut off is all white space, and the result does not start with white space |
| Chars.TrimStartKeepsRest | script.js:326-329 | the input is the removed white space followed by the result: only leading white space is removed |
| Chars.NatToDecimal | script.js:287 | the decimal text of a number is all digits, has no leading zero, and has that number as its value |
| Columns.CellText | script.js:282-286 | `val or ""` shows a text token as itself, and a number as digits, blank exactly when the number is 0 |
| Columns.CellTextReadsBack | script.js:282-286 | `val or ""` shows a text token as itself and a number by its decimal text, which reads back as the number; the number 0 shows blank and reads as missing |
| Columns.TokenOrBlank | script.js:288-293 | the fallback of `tokens[k]` to `""` is blank past the end of the row and the cell text of token k otherwise |
| Columns.MapRow | script.js:287-293 | the serial cell is the decimal text of position plus one; cells 1 to 6 show tokens 1 to 6 through `val or ""`, and are blank where the row has no such token |
| Columns.MainTable | script.js:279-293 | one set of prefilled cells per detected row, row i filled from its tokens and position |
| Columns.SerialReadsPosition | script.js:287 | the serial cell reads as the row's position plus one |
| Columns.SerialIgnoresFirstToken | script.js:287 | token 0 never reaches a cell |
| Columns.ExtraTokensIgnored | script.js:288-293 | tokens past index 6 never reach a cell |
| Columns.ShortRowBlank | script.js:288-293 | a short row leaves its last cells blank |
| Columns.ParsedRowColumns | script.js:288-293 | for a parsed line, the six cells after the serial hold tokens 1 to 6 verbatim, or blank where the line has fewer |
| Columns.DemoRowColumns | script.js:288-293 | demo row j reads back as press `PW`, reference `B`, selection j, X 150 + 10 j, Y/Z 100 + j, diameter 13 |
| NumberField.ReadField | script.js:326-329 | an empty field reads as missing without being parsed |
| NumberField.ScanFindsLiteral | script.js:326-329 | what the one-pass scan finds is a well-formed literal at the start of the trimmed field |
| NumberField.FractionValue | script.js:326-329 | the fraction digits have a value in [0, 1) |
| NumberField.ScanFindsDecimal | script.js:326-329 | what the scan finds is a decimal prefix |
| NumberField.ScanCoversDecimal | script.js:326-329 | every decimal prefix is covered by what the scan finds |
| NumberField.ScanIsLongest | script.js:326-329 | the scan finds the longest decimal prefix, and finds one whenever one exists |
| NumberField.ParseFloat | script.js:326-329 | a field that reads as a number holds at least one digit |
| NumberField.ParseFloatReadsLongestPrefix | script.js:326-329 | a field is missing exactly when it has no decimal prefix after its leading white space; otherwise it reads as the value of its longest one |
| NumberField.NoLeadingSpace | script.js:326-329 | a field that starts with a sign, a digit or a point has nothing to skip |
| NumberField.ReadFieldReadsInteger | script.js:326-329 | an integer followed by a character that cannot continue it reads as that integer with its sign |
| NumberField.ReadFieldReadsPointed | script.js:326-329 | a literal with a point, followed by a non-digit, reads as whole part plus fraction with its sign |
| NumberField.ScanPointed | script.js:326-329 | the scan of a pointed literal stops at its last fraction digit |
| NumberField.ReadFieldOfDecimal | script.js:326-329 | the decimal text of a number reads back as that number |
| NumberField.ReadFieldOfText | script.js:326-329 | `"abc"` reads as missing |
| NumberField.ReadFieldOfNumberThenText | script.js:326-329 | `"9x12"` reads as 9 |
| NumberField.ReadFieldOfFraction | script.js:326-329 | `"10.5"` reads as 10.5 |
| NumberField.ReadFieldOfSignedFraction | script.js:326-329 | `"-0.25mm"` reads as -0.25 |
| RowCheck.Reconcile | script.js:333-338 | the offset exists exactly when both Y/Z values do, and then spec + offset = actual; the row passes exactly when a diameter is missing or actual - spec lies in [-0.2, +0.5] |
| RowCheck.RowOutcome | script.js:326-338 | a blank specified or actual diameter makes the row pass, and a blank specified or actual Y/Z leaves the offset blank, since `value or NaN` turns a blank into NaN |
| RowCheck.Decide | script.js:332-338 | `offset` starting as NaN and `ok` starting true, each updated under its guard, end as exactly the outcome `Reconcile` describes |
| RowCheck.VerdictIgnoresYZ | script.js:337-338 | the verdict does not depend on either Y/Z value |
| RowCheck.OffsetIgnoresDiameters | script.js:333 | the offset does not depend on either diameter |
| RowCheck.BandIsClosedInterval | script.js:338 | both ends of the band pass, and every diameter between two that pass also passes |
| RowCheck.OutsideBandFails | script.js:338 | a diameter below spec - 0.2 or above spec + 0.5 fails |
| RowCheck.MissingDiameterPasses | script.js:328-338 | a blank or non-numeric actual diameter passes, whatever the other values |
| RowCheck.BlankInputsPass | script.js:326-338 | a row with both actual inputs blank passes and shows no offset |
| RowCheck.DemoRowOutcome | script.js:326-338 | demo row j is checked against Y/Z 100 + j and diameter 13 |
| RowCheck.DemoRowVerdict | script.js:326-338 | on demo row j, a numeric actual diameter passes exactly when it is between 12.8 and 13.5, and a numeric actual Y/Z y shows offset y - (100 + j) |
| RowCheck.InspectionRow.constructor | script.js:282-299 | a new row has its prefilled cells, empty inputs and empty offset and result cells |
| RowCheck.InspectionRow.RecalcRow | script.js:324-342 | after recalculation the offset cell, result text and result class show the outcome of the current inputs, and text and class agree; the inputs are unchanged |
| RowCheck.InspectionRow.Input | script.js:301-302 | typing into one input stores the value there, leaves the other inputs alone, and the row then shows the outcome of its inputs |
| RowCheck.EdgeValueIsIgnored | script.js:326-338 | typing a hole-edge value into a row already showing its outcome changes neither the offset nor the result cells |

## Left out

- PDF loading, page rendering and text extraction through pdf.js are left out. They are asynchronous I/O over a library outside this model. `detectTableLines` takes the extracted text as its parameter.
- `parseHeader` is left out. It is a series of case-insensitive regular expressions with lazy matching over the same text, and would need a model of the regular expression engine.
- `updateHeaderFields` is left out. It only writes the header values into the page.
- DOM construction, styling, messages and the PDF export through html2canvas and jsPDF are left out. They are presentation and I/O with no decision logic beyond the cell mapping. The table's cells are fields of `RowCheck.InspectionRow`.
- RowCheck.InspectionRow.RecalcRow: the offset cell holds the exact offset, not its `toFixed(2)` text.
- RowCheck.Reconcile: values are exact reals, not IEEE-754 doubles. Near the band ends the two can differ. In JavaScript `13.3 - 0.2` is `13.100000000000001`, so an actual diameter of 13.1 against a specified 13.3 is NOK there and OK in the model. For the demo rows' diameter 13 the band ends `12.8` and `13.5` are the same in both.
- NumberField.ReadField: the decimal subset has no exponents and no `Infinity`. JavaScript reads `"1e3"` as 1000, while the model reads it as 1.
- Chars.IsSpace: white space for `trim`, `\s` and `parseFloat` is the ASCII set: space, tab, line feed, vertical tab, form feed and carriage return. Unicode white space such as no-break space is not covered.
- Demo-table cells are modelled as numbers and parsed cells as strings, as JavaScript holds them. An input's `value` of a number is its decimal text (`Chars.NatToDecimal`). Negative and fractional numbers never occur in these rows.
- The shared `parsedTableRows` variable is left out. So are the order of events between loading a file and building the table, and `recalcRow` locating its cells by position (`tds[5]` and so on). The model names the cells directly.
