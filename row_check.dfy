/** Checking one inspection row against its specification (`recalcRow`).
    The Y/Z offset is the actual position minus the specified one when both
    are numbers; the verdict looks at the diameter only, which passes when it
    lies between 0.2 below and 0.5 above the specified diameter, and passes
    as well when either diameter is missing. */
module RowCheck {
  import opened Wrappers
  import opened NumberField
  import opened TableLines
  import opened Columns

  /** How far below the specified diameter an actual one may lie. */
  const BelowTolerance: real := 0.2

  /** How far above the specified diameter an actual one may lie. */
  const AboveTolerance: real := 0.5

  /** What `recalcRow` shows: the offset (`None` for the blank cell that
      stands for NaN) and whether the row passes. */
  datatype Outcome = Outcome(offset: Option<real>, ok: bool)

  /** The verdict and offset from the four numbers `recalcRow` reads; `None`
      is NaN. */
  function Reconcile(specYZ: Option<real>, specDia: Option<real>,
                     actDia: Option<real>, actYZ: Option<real>): (o: Outcome)
    ensures o.offset.Some? <==> specYZ.Some? && actYZ.Some?
    ensures o.offset.Some? ==> specYZ.value + o.offset.value == actYZ.value
    ensures o.ok <==> (specDia.None? || actDia.None?
                       || -BelowTolerance <= actDia.value - specDia.value <= AboveTolerance)
  {
    var offset := if actYZ.Some? && specYZ.Some? then Some(actYZ.value - specYZ.value) else None;
    var ok :=
      if specDia.Some? && actDia.Some? then
        actDia.value >= specDia.value - BelowTolerance && actDia.value <= specDia.value + AboveTolerance
      else true;
    Outcome(offset, ok)
  }

  /** The result cell's text. */
  function ResultText(ok: bool): string {
    if ok then "OK" else "NOK"
  }

  /** The result cell's class. */
  function ResultClass(ok: bool): string {
    if ok then "ok-cell" else "nok-cell"
  }

  /** The outcome for a row's prefilled cells and its two actual inputs, each
      read with `parseFloat(value || NaN)`. */
  function RowOutcome(cells: SpecCells, actualDia: string, actualYZ: string): (o: Outcome)
    ensures cells.specDia == "" || actualDia == "" ==> o.ok
    ensures cells.specYZ == "" || actualYZ == "" ==> o.offset.None?
  {
    Reconcile(ReadField(cells.specYZ), ReadField(cells.specDia), ReadField(actualDia), ReadField(actualYZ))
  }

  /** The verdict does not depend on the Y/Z values at all. */
  lemma VerdictIgnoresYZ(specYZ: Option<real>, specYZ': Option<real>, specDia: Option<real>,
                         actDia: Option<real>, actYZ: Option<real>, actYZ': Option<real>)
    ensures Reconcile(specYZ, specDia, actDia, actYZ).ok == Reconcile(specYZ', specDia, actDia, actYZ').ok
  {
  }

  /** The offset does not depend on the diameters. */
  lemma OffsetIgnoresDiameters(specYZ: Option<real>, specDia: Option<real>, specDia': Option<real>,
                               actDia: Option<real>, actDia': Option<real>, actYZ: Option<real>)
    ensures Reconcile(specYZ, specDia, actDia, actYZ).offset == Reconcile(specYZ, specDia', actDia', actYZ).offset
  {
  }

  /** Both ends of the diameter band pass, and so does every diameter
      between two that pass. */
  lemma BandIsClosedInterval(spec: real, a: real, b: real, c: real, yz: Option<real>)
    requires Reconcile(yz, Some(spec), Some(a), yz).ok && Reconcile(yz, Some(spec), Some(b), yz).ok
    requires a <= c <= b
    ensures Reconcile(yz, Some(spec), Some(c), yz).ok
    ensures Reconcile(yz, Some(spec), Some(spec - BelowTolerance), yz).ok
    ensures Reconcile(yz, Some(spec), Some(spec + AboveTolerance), yz).ok
  {
  }

  /** A diameter outside the band fails. */
  lemma OutsideBandFails(spec: real, act: real, yz: Option<real>)
    requires act < spec - BelowTolerance || act > spec + AboveTolerance
    ensures !Reconcile(yz, Some(spec), Some(act), yz).ok
  {
  }

  /** A row whose actual diameter is blank or not a number passes, whatever
      its position. */
  lemma MissingDiameterPasses(cells: SpecCells, actualDia: string, actualYZ: string)
    requires ReadField(actualDia).None?
    ensures RowOutcome(cells, actualDia, actualYZ).ok
  {
  }

  /** A row with both actual inputs blank passes and shows no offset. */
  lemma BlankInputsPass(cells: SpecCells)
    ensures RowOutcome(cells, "", "") == Outcome(None, true)
  {
  }

  /** Row `j` of the demo table (counted from 1) is checked against Y/Z
      `100 + j` and diameter 13. */
  lemma DemoRowOutcome(j: nat, actualDia: string, actualYZ: string)
    requires 1 <= j
    ensures RowOutcome(MapRow(DemoRow(j), j - 1), actualDia, actualYZ)
      == Reconcile(Some((100 + j) as real), Some(13.0), ReadField(actualDia), ReadField(actualYZ))
  {
    DemoRowColumns(j);
  }

  /** Row `j` of the demo table (counted from 1): an actual diameter passes
      exactly when it reads between 12.8 and 13.5, and an actual Y/Z that
      reads `y` shows the offset `y - (100 + j)`. */
  lemma DemoRowVerdict(j: nat, actualDia: string, actualYZ: string)
    requires 1 <= j
    ensures var o := RowOutcome(MapRow(DemoRow(j), j - 1), actualDia, actualYZ);
      && (ReadField(actualDia).Some? ==> (o.ok <==> 12.8 <= ReadField(actualDia).value <= 13.5))
      && (ReadField(actualYZ).Some? ==> o.offset == Some(ReadField(actualYZ).value - (100 + j) as real))
  {
    DemoRowOutcome(j, actualDia, actualYZ);
    var o := Reconcile(Some((100 + j) as real), Some(13.0), ReadField(actualDia), ReadField(actualYZ));
    assert RowOutcome(MapRow(DemoRow(j), j - 1), actualDia, actualYZ) == o;
    if ReadField(actualDia).Some? {
      var x := ReadField(actualDia).value;
      assert o.ok <==> -BelowTolerance <= x - 13.0 <= AboveTolerance;
    }
  }

  /** The body of `recalcRow` between its reads and its writes: `offset`
      starts as NaN and takes the difference when both Y/Z values are
      numbers; `ok` starts true and is replaced by the band test when both
      diameters are numbers. */
  method Decide(specYZ: Option<real>, specDia: Option<real>, actDia: Option<real>, actYZ: Option<real>)
    returns (offset: Option<real>, ok: bool)
    ensures Outcome(offset, ok) == Reconcile(specYZ, specDia, actDia, actYZ)
  {
    offset := None;
    if actYZ.Some? && specYZ.Some? {
      offset := Some(actYZ.value - specYZ.value);
    }
    ok := true;
    if specDia.Some? && actDia.Some? {
      ok := actDia.value >= specDia.value - BelowTolerance && actDia.value <= specDia.value + AboveTolerance;
    }
  }

  /** The three inputs a user types into. */
  datatype InputField = ValueFromEdge | ActualDia | ActualYZ

  /** One row of the inspection table: its prefilled cells, the three inputs
      the inspector fills, and the offset and result cells `recalcRow`
      writes. */
  class InspectionRow {
    const cells: SpecCells
    var valueFromEdge: string
    var actualDia: string
    var actualYZ: string
    /** The offset cell; `None` is the blank cell. */
    var offsetCell: Option<real>
    var resultText: string
    var resultClass: string

    /** The outcome the current inputs call for. */
    function Expected(): Outcome
      reads this`actualDia, this`actualYZ
    {
      RowOutcome(cells, actualDia, actualYZ)
    }

    /** The offset and result cells show outcome `o`, text and class in
        agreement. */
    predicate Shows(o: Outcome)
      reads this
    {
      offsetCell == o.offset && resultText == ResultText(o.ok) && resultClass == ResultClass(o.ok)
    }

    /** The row as `buildMainTable` leaves it: nothing typed and nothing
        computed yet. */
    predicate Untouched()
      reads this
    {
      valueFromEdge == "" && actualDia == "" && actualYZ == ""
      && offsetCell.None? && resultText == "" && resultClass == ""
    }

    /** What every row keeps: either untouched, or showing the outcome of its
        current inputs. */
    predicate Valid()
      reads this
    {
      Untouched() || Shows(Expected())
    }

    /** A new row with the given prefilled cells. */
    constructor (cells: SpecCells)
      ensures this.cells == cells
      ensures Untouched() && Valid()
    {
      this.cells := cells;
      valueFromEdge, actualDia, actualYZ := "", "", "";
      offsetCell := None;
      resultText, resultClass := "", "";
    }

    /** `recalcRow`: read the four numbers, work out the offset and the
        verdict, then write the offset cell and the result text and class. */
    method RecalcRow()
      modifies this
      ensures Shows(Expected()) && Valid()
      ensures valueFromEdge == old(valueFromEdge)
      ensures actualDia == old(actualDia) && actualYZ == old(actualYZ)
    {
      var specYZ := ReadField(cells.specYZ);
      var specDia := ReadField(cells.specDia);
      var actDia := ReadField(actualDia);
      var actYZ := ReadField(actualYZ);
      ghost var expected := Expected();
      assert expected == Reconcile(specYZ, specDia, actDia, actYZ);
      var offset, ok := Decide(specYZ, specDia, actDia, actYZ);
      offsetCell := offset;
      resultText := ResultText(ok);
      resultClass := ResultClass(ok);
      assert Expected() == expected;
    }

    /** The input listener: typing into one of the three inputs stores the
        value and recalculates the row. */
    method Input(field: InputField, value: string)
      modifies this
      ensures valueFromEdge == (if field == ValueFromEdge then value else old(valueFromEdge))
      ensures actualDia == (if field == ActualDia then value else old(actualDia))
      ensures actualYZ == (if field == ActualYZ then value else old(actualYZ))
      ensures Shows(Expected()) && Valid()
    {
      match field {
        case ValueFromEdge => valueFromEdge := value;
        case ActualDia => actualDia := value;
        case ActualYZ => actualYZ := value;
      }
      RecalcRow();
    }
  }

  /** The value from the hole edge never changes what a row shows: after
      typing it, the row shows what its other inputs call for. */
  method EdgeValueIsIgnored(row: InspectionRow, value: string)
    requires row.Valid() && !row.Untouched()
    modifies row
    ensures row.offsetCell == old(row.offsetCell)
    ensures row.resultText == old(row.resultText) && row.resultClass == old(row.resultClass)
  {
    row.Input(ValueFromEdge, value);
  }
}
