/** Reading a numeric table field the way `recalcRow` does:
    `parseFloat(value || NaN)`. `parseFloat` (section 19.2.4 of ECMA-262)
    skips leading white space and reads the longest prefix that is a decimal
    literal; when there is none the result is NaN, written `None` here. */
module NumberField {
  import opened Wrappers
  import opened Chars

  /** 1 when the string starts with `+` or `-`, else 0. */
  function SignLength(t: string): (b: nat)
    ensures b <= |t|
    ensures b == 1 <==> |t| > 0 && (t[0] == '+' || t[0] == '-')
  {
    if |t| > 0 && (t[0] == '+' || t[0] == '-') then 1 else 0
  }

  /** The first `m` characters of `t` form a decimal literal: an optional
      sign, then digits with an optional point and optional fraction digits,
      or a point followed by digits (`12`, `12.`, `12.5`, `.5`, `-3.25`).
      Exponents and `Infinity`, which ECMAScript's StrDecimalLiteral also
      allows, are not part of it. */
  ghost predicate IsDecimalPrefix(t: string, m: nat) {
    && m <= |t|
    && var b := if m > 0 && (t[0] == '+' || t[0] == '-') then 1 else 0;
    || (b < m && DigitsIn(t, b, m))
    || (b + 1 < m && exists k :: b <= k < m && t[k] == '.' && DigitsIn(t, b, k) && DigitsIn(t, k + 1, m))
  }

  /** A literal found at the start of a string, by the lengths of its parts:
      sign, whole digits, whether there is a point, fraction digits. */
  datatype Literal = Literal(signLength: nat, wholeLength: nat, point: bool, fractionLength: nat)
  {
    function Length(): nat {
      signLength + wholeLength + (if point then 1 + fractionLength else 0)
    }
  }

  /** `lit` describes a decimal literal at the start of `t`. */
  predicate LiteralAt(t: string, lit: Literal) {
    var b, w, f := lit.signLength, lit.wholeLength, lit.fractionLength;
    && lit.Length() <= |t|
    && b == SignLength(t)
    && DigitsIn(t, b, b + w)
    && (lit.point ==> t[b + w] == '.' && DigitsIn(t, b + w + 1, b + w + 1 + f))
    && (!lit.point ==> f == 0)
    && (w > 0 || (lit.point && f > 0))
  }

  /** One scan over the start of `t`: sign, digit run, point, digit run. */
  function ScanLiteral(t: string): Option<Literal> {
    var b := SignLength(t);
    var w := RunLength(t, b, Digit);
    if b + w < |t| && t[b + w] == '.' then
      var f := RunLength(t, b + w + 1, Digit);
      if w > 0 || f > 0 then Some(Literal(b, w, true, f)) else None
    else if w > 0 then Some(Literal(b, w, false, 0)) else None
  }

  /** What the scan finds is a literal at the start of `t`. */
  lemma ScanFindsLiteral(t: string)
    ensures ScanLiteral(t).Some? ==> LiteralAt(t, ScanLiteral(t).value)
  {
    var b := SignLength(t);
    var w := RunLength(t, b, Digit);
    RunLengthIsMaximal(t, b, Digit);
    if b + w < |t| {
      RunLengthIsMaximal(t, b + w + 1, Digit);
    }
  }

  /** The value of the fraction digits of `t` from `i` up to `j`:
      0.d1 d2 ... = (d1 + 0.d2 ...) / 10. */
  function FractionValue(t: string, i: nat, j: nat): (x: real)
    requires i <= j <= |t| && DigitsIn(t, i, j)
    ensures 0.0 <= x < 1.0
    decreases j - i
  {
    if i == j then 0.0 else (DigitValue(t[i]) as real + FractionValue(t, i + 1, j)) / 10.0
  }

  /** A magnitude with the sign of the literal at the start of `t` applied. */
  function ApplySign(t: string, x: real): real {
    if SignLength(t) == 1 && t[0] == '-' then -x else x
  }

  /** The value of the literal `lit` at the start of `t`. */
  function LiteralValue(t: string, lit: Literal): real
    requires LiteralAt(t, lit)
  {
    var b, w, f := lit.signLength, lit.wholeLength, lit.fractionLength;
    var whole := DigitsValue(t, b, b + w) as real;
    ApplySign(t, if lit.point then whole + FractionValue(t, b + w + 1, b + w + 1 + f) else whole)
  }

  /** `parseFloat(s)` over the decimal subset. */
  function ParseFloat(s: string): (r: Option<real>)
    ensures r.Some? ==> exists k :: 0 <= k < |s| && IsDigit(s[k])
  {
    var t := TrimStart(s);
    TrimStartKeepsRest(s);
    ScanFindsLiteral(t);
    match ScanLiteral(t)
    case None => None
    case Some(lit) =>
      var d := lit.signLength + (if lit.wholeLength > 0 then 0 else 1 + lit.wholeLength);
      assert IsDigit(t[d]) && s[|s| - |t| + d] == t[d];
      Some(LiteralValue(t, lit))
  }

  /** `parseFloat(value || NaN)`: an empty field is NaN without being parsed,
      and `parseFloat(NaN)` is NaN too, so this is `parseFloat(value)`. */
  function ReadField(value: string): (r: Option<real>)
    ensures value == "" ==> r == None
    ensures r == ParseFloat(value)
  {
    if value == "" then None else ParseFloat(value)
  }

  /** What the scan finds is a decimal literal. */
  lemma ScanFindsDecimal(t: string)
    requires ScanLiteral(t).Some?
    ensures IsDecimalPrefix(t, ScanLiteral(t).value.Length())
  {
    var lit := ScanLiteral(t).value;
    ScanFindsLiteral(t);
    var b, w := lit.signLength, lit.wholeLength;
    if lit.point {
      assert t[b + w] == '.';
    }
  }

  /** Any one decimal prefix is covered by the scan. */
  lemma ScanCoversDecimal(t: string, m: nat)
    requires IsDecimalPrefix(t, m)
    ensures ScanLiteral(t).Some? && m <= ScanLiteral(t).value.Length()
  {
    var b := SignLength(t);
    var w := RunLength(t, b, Digit);
    RunLengthIsMaximal(t, b, Digit);
    if !(b < m && DigitsIn(t, b, m)) {
      var k :| b <= k < m && t[k] == '.' && DigitsIn(t, b, k) && DigitsIn(t, k + 1, m);
      assert k == b + w;
      var f := RunLength(t, b + w + 1, Digit);
      RunLengthIsMaximal(t, b + w + 1, Digit);
      assert m - (k + 1) <= f;
    }
  }

  /** The scan finds the longest decimal prefix, and finds none exactly when
      there is none. */
  lemma ScanIsLongest(t: string)
    ensures ScanLiteral(t).Some? ==> IsDecimalPrefix(t, ScanLiteral(t).value.Length())
    ensures forall m: nat :: IsDecimalPrefix(t, m) ==>
      ScanLiteral(t).Some? && m <= ScanLiteral(t).value.Length()
  {
    if ScanLiteral(t).Some? {
      ScanFindsDecimal(t);
    }
    forall m: nat | IsDecimalPrefix(t, m)
      ensures ScanLiteral(t).Some? && m <= ScanLiteral(t).value.Length()
    {
      ScanCoversDecimal(t, m);
    }
  }

  /** `parseFloat` reads the longest decimal prefix after the leading white
      space, and is NaN exactly when there is no such prefix. */
  lemma ParseFloatReadsLongestPrefix(s: string)
    ensures ParseFloat(s).None? <==> forall m: nat :: !IsDecimalPrefix(TrimStart(s), m)
    ensures ParseFloat(s).Some? ==>
      exists lit :: LiteralAt(TrimStart(s), lit) && ParseFloat(s).value == LiteralValue(TrimStart(s), lit)
        && IsDecimalPrefix(TrimStart(s), lit.Length())
        && forall m: nat :: IsDecimalPrefix(TrimStart(s), m) ==> m <= lit.Length()
  {
    var t := TrimStart(s);
    ScanIsLongest(t);
    ScanFindsLiteral(t);
  }

  /** A string that starts with a sign, a digit or a point has no leading
      white space. */
  lemma NoLeadingSpace(s: string)
    requires |s| > 0 && (SignLength(s) == 1 || IsDigit(s[0]) || s[0] == '.')
    ensures TrimStart(s) == s
  {
    RunLengthUnique(s, 0, Space, 0);
  }

  /** An integer literal at the start of `s` (sign of length `b`, `w` digits)
      followed by a character that cannot continue it reads as the integer,
      with its sign: `"9x12"` reads as 9. */
  lemma ReadFieldReadsInteger(s: string, b: nat, w: nat, x: real)
    requires b == SignLength(s) && 0 < w && b + w <= |s|
    requires DigitsIn(s, b, b + w)
    requires b + w == |s| || (!IsDigit(s[b + w]) && s[b + w] != '.')
    requires x == ApplySign(s, DigitsValue(s, b, b + w) as real)
    ensures ParseFloat(s) == Some(x) && ReadField(s) == Some(x)
  {
    NoLeadingSpace(s);
    RunLengthUnique(s, b, Digit, w);
    assert ScanLiteral(s) == Some(Literal(b, w, false, 0));
  }

  /** A literal with a decimal point at the start of `s` (sign of length `b`,
      `w` whole digits, the point, `f` fraction digits) followed by a character
      that is not a digit reads as whole part plus fraction, with its sign:
      `"10.5"` reads as 10.5. */
  lemma ReadFieldReadsPointed(s: string, b: nat, w: nat, f: nat, x: real)
    requires b == SignLength(s) && w + f > 0 && b + w + 1 + f <= |s|
    requires DigitsIn(s, b, b + w) && s[b + w] == '.' && DigitsIn(s, b + w + 1, b + w + 1 + f)
    requires b + w + 1 + f == |s| || !IsDigit(s[b + w + 1 + f])
    requires x == ApplySign(s, DigitsValue(s, b, b + w) as real + FractionValue(s, b + w + 1, b + w + 1 + f))
    ensures ParseFloat(s) == Some(x) && ReadField(s) == Some(x)
  {
    ScanPointed(s, b, w, f);
    NoLeadingSpace(s);
    assert LiteralValue(s, Literal(b, w, true, f)) == x;
  }

  /** The scan of a pointed literal stops at its last fraction digit. */
  lemma ScanPointed(s: string, b: nat, w: nat, f: nat)
    requires b == SignLength(s) && w + f > 0 && b + w + 1 + f <= |s|
    requires DigitsIn(s, b, b + w) && s[b + w] == '.' && DigitsIn(s, b + w + 1, b + w + 1 + f)
    requires b + w + 1 + f == |s| || !IsDigit(s[b + w + 1 + f])
    ensures ScanLiteral(s) == Some(Literal(b, w, true, f))
  {
    RunLengthUnique(s, b, Digit, w);
    RunLengthUnique(s, b + w + 1, Digit, f);
  }

  /** The decimal string of a non-negative integer reads back as that
      integer. */
  lemma ReadFieldOfDecimal(n: nat)
    ensures ReadField(NatToDecimal(n)) == Some(n as real)
  {
    var d := NatToDecimal(n);
    assert DigitsValue(d, 0, |d|) == n;
    ReadFieldReadsInteger(d, 0, |d|, n as real);
  }

  /** A field without any decimal prefix reads as missing. */
  lemma ReadFieldOfText()
    ensures ReadField("abc") == None
  {
    var s := "abc";
    RunLengthUnique(s, 0, Space, 0);
    RunLengthUnique(s, 0, Digit, 0);
  }

  /** Only the leading decimal prefix of a field is read: `"9x12"` reads as 9. */
  lemma ReadFieldOfNumberThenText()
    ensures ReadField("9x12") == Some(9.0)
  {
    ReadFieldReadsInteger("9x12", 0, 1, 9.0);
  }

  /** A field with a decimal fraction. */
  lemma ReadFieldOfFraction()
    ensures ReadField("10.5") == Some(10.5)
  {
    var s := "10.5";
    assert FractionValue(s, 3, 4) == 0.5;
    assert DigitsValue(s, 0, 2) == 10;
    ReadFieldReadsPointed(s, 0, 2, 1, 10.5);
  }

  /** A negative field with a unit after it. */
  lemma ReadFieldOfSignedFraction()
    ensures ReadField("-0.25mm") == Some(-0.25)
  {
    var s := "-0.25mm";
    assert FractionValue(s, 4, 5) == 0.5;
    assert FractionValue(s, 3, 5) == 0.25;
    assert DigitsValue(s, 1, 2) == 0;
    ReadFieldReadsPointed(s, 1, 1, 2, -0.25);
  }
}
