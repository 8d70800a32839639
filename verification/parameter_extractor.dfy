/** The host-independent part of the parameter extractor: how parameter names
    are sanitised, how FreeCAD unit strings are rewritten into CalcsLive
    notation, which property types carry an implied unit, and how spreadsheet
    cells of the form "<number> <unit>" are recognised. */
module ParameterExtractor {

  import opened Wrappers
  import opened Text
  import Seqs

  /** One extracted FreeCAD parameter: the value/unit pair sent to CalcsLive
      and the object and property it came from. */
  datatype ExtractedParam = ExtractedParam(
    value: real,
    unit: string,
    sourceObject: string,
    sourceLabel: string,
    propertyName: string,
    propertyType: string,
    originalUnit: Option<string>,
    inferredUnit: bool,
    cellAddress: Option<string>)

  /** The `{value, unit}` pair CalcsLive expects for one input. */
  datatype ValueUnit = ValueUnit(value: real, unit: string)

  // ---------------------------------------------------------------------
  // Parameter names

  const MaxNameLength: nat := 50
  const NumericPrefix: string := "param_"
  const UnnamedParam: string := "unnamed_param"

  /** A name CalcsLive accepts: non-empty, at most 50 characters from
      `[A-Za-z0-9_]`, not starting with a digit. */
  predicate ValidName(s: string) {
    s != [] && |s| <= MaxNameLength && !IsAsciiDigit(s[0])
    && forall i :: 0 <= i < |s| ==> IsWordChar(s[i])
  }

  /** Every character outside `[A-Za-z0-9_]` replaced by `_`. */
  function ReplaceInvalid(name: string): (r: string)
    ensures |r| == |name|
    ensures forall i :: 0 <= i < |r| ==> r[i] == (if IsWordChar(name[i]) then name[i] else '_')
  {
    if name == [] then [] else [if IsWordChar(name[0]) then name[0] else '_'] + ReplaceInvalid(name[1..])
  }

  function SanitizeName(name: string): (r: string)
    ensures ValidName(r)
    ensures name == [] ==> r == UnnamedParam
    ensures name != [] && !IsAsciiDigit(name[0]) ==>
      |r| == Seqs.Min(|name|, MaxNameLength)
      && forall i :: 0 <= i < |r| ==> r[i] == (if IsWordChar(name[i]) then name[i] else '_')
    ensures name != [] && IsAsciiDigit(name[0]) ==>
      |r| == Seqs.Min(|name| + |NumericPrefix|, MaxNameLength)
      && r[..|NumericPrefix|] == NumericPrefix
      && forall i :: |NumericPrefix| <= i < |r| ==>
           r[i] == (if IsWordChar(name[i - |NumericPrefix|]) then name[i - |NumericPrefix|] else '_')
  {
    var replaced := ReplaceInvalid(name);
    var prefixed := if replaced != [] && IsAsciiDigit(replaced[0]) then NumericPrefix + replaced else replaced;
    var truncated := if |prefixed| > MaxNameLength then prefixed[..MaxNameLength] else prefixed;
    if truncated == [] then UnnamedParam else truncated
  }

  /** A name that is already valid comes back unchanged. */
  lemma SanitizeValidUnchanged(name: string)
    requires ValidName(name)
    ensures SanitizeName(name) == name
  {
    var r := SanitizeName(name);
    assert |r| == |name|;
    forall i | 0 <= i < |r| ensures r[i] == name[i] {
      assert IsWordChar(name[i]);
    }
  }

  /** Sanitising twice is sanitising once. */
  lemma SanitizeIdempotent(name: string)
    ensures SanitizeName(SanitizeName(name)) == SanitizeName(name)
  {
    SanitizeValidUnchanged(SanitizeName(name));
  }

  // ---------------------------------------------------------------------
  // Unit strings, FreeCAD notation to CalcsLive notation

  /** The direct FreeCAD-to-CalcsLive unit table. */
  function UnitTable(u: string): Option<string> {
    match u
    case "mm" => Some("mm")
    case "cm" => Some("cm")
    case "m" => Some("m")
    case "km" => Some("km")
    case "in" => Some("in")
    case "ft" => Some("ft")
    case "deg" => Some("°")
    case "rad" => Some("rad")
    case "mm^2" => Some("mm²")
    case "cm^2" => Some("cm²")
    case "m^2" => Some("m²")
    case "mm^3" => Some("mm³")
    case "cm^3" => Some("cm³")
    case "m^3" => Some("m³")
    case "kg" => Some("kg")
    case "g" => Some("g")
    case "N" => Some("N")
    case "Pa" => Some("Pa")
    case "MPa" => Some("MPa")
    case "GPa" => Some("GPa")
    case _ => None
  }

  /** The keys of the unit table, in table order. */
  const UnitTableKeys: seq<string> := [
    "mm", "cm", "m", "km", "in", "ft", "deg", "rad",
    "mm^2", "cm^2", "m^2", "mm^3", "cm^3", "m^3",
    "kg", "g", "N", "Pa", "MPa", "GPa"]

  lemma UnitTableDomain(u: string)
    ensures UnitTable(u).Some? <==> u in UnitTableKeys
  {}

  /** `^2` and `^3` written as superscripts, in that order. */
  function Superscripts(u: string): string {
    ReplaceAll(ReplaceAll(u, "^2", "²"), "^3", "³")
  }

  /** The CalcsLive spelling of a FreeCAD unit string: surrounding blanks are
      dropped, table entries are translated, otherwise exponents become
      superscripts, and a blank unit is "dimensionless". */
  function ConvertUnit(freecadUnit: string): (r: string)
    ensures r != []
    ensures UnitTable(Strip(freecadUnit)).Some? ==> r == UnitTable(Strip(freecadUnit)).value
    ensures Strip(freecadUnit) == [] ==> r == "dimensionless"
    ensures UnitTable(Strip(freecadUnit)).None? && '^' !in Strip(freecadUnit) ==>
      r == (if Strip(freecadUnit) == [] then "dimensionless" else Strip(freecadUnit))
  {
    var clean := Strip(freecadUnit);
    match UnitTable(clean)
    case Some(v) => v
    case None =>
      var rewritten := if '^' in clean then Superscripts(clean) else clean;
      if rewritten == [] then "dimensionless" else rewritten
  }

  /** Without a caret the superscript rewrite changes nothing, so
      `ConvertUnit` is the table, else the superscript rewrite of the
      stripped unit, else "dimensionless". */
  lemma ConvertUnitUniform(freecadUnit: string)
    ensures var clean := Strip(freecadUnit);
      ConvertUnit(freecadUnit) ==
        if UnitTable(clean).Some? then UnitTable(clean).value
        else if clean == [] then "dimensionless"
        else Superscripts(clean)
  {
    var clean := Strip(freecadUnit);
    if UnitTable(clean).None? && '^' !in clean {
      ReplaceAbsent(clean, "^2", "²");
      ReplaceAbsent(clean, "^3", "³");
    }
  }

  // ---------------------------------------------------------------------
  // Property types

  /** The property types `_is_dimensional_property` recognises by name. */
  const DimensionalTypes: seq<string> := [
    "App::PropertyLength", "App::PropertyDistance", "App::PropertyAngle",
    "App::PropertyArea", "App::PropertyVolume", "App::PropertyMass",
    "App::PropertyForce", "App::PropertyPressure", "App::PropertyVelocity",
    "App::PropertyAcceleration", "App::PropertyPower", "App::PropertyEnergy",
    "App::PropertyFrequency", "App::PropertyTemperature"]

  /** A property is dimensional when its value is a quantity (it has both
      `Value` and `Unit`) or its type is on the dimensional list. */
  function IsDimensional(propType: string, valueIsQuantity: bool): bool {
    valueIsQuantity || propType in DimensionalTypes
  }

  /** The unit implied by a property type, for plain numbers. */
  function InferUnit(propType: string): (r: Option<string>)
    ensures r.Some? <==> propType in DimensionalTypes
    ensures r.Some? ==> r.value != []
  {
    match propType
    case "App::PropertyLength" => Some("mm")
    case "App::PropertyDistance" => Some("mm")
    case "App::PropertyAngle" => Some("°")
    case "App::PropertyArea" => Some("mm²")
    case "App::PropertyVolume" => Some("mm³")
    case "App::PropertyMass" => Some("kg")
    case "App::PropertyForce" => Some("N")
    case "App::PropertyPressure" => Some("Pa")
    case "App::PropertyVelocity" => Some("m/s")
    case "App::PropertyAcceleration" => Some("m/s²")
    case "App::PropertyPower" => Some("W")
    case "App::PropertyEnergy" => Some("J")
    case "App::PropertyFrequency" => Some("Hz")
    case "App::PropertyTemperature" => Some("°C")
    case _ => None
  }

  // ---------------------------------------------------------------------
  // Spreadsheet cells "<number> <unit>"

  /** `[\d\.\-\+]`, with ASCII digits. */
  predicate IsNumberChar(c: char) {
    IsAsciiDigit(c) || c == '.' || c == '-' || c == '+'
  }

  /** `[a-zA-Z²³°]`. */
  predicate IsUnitChar(c: char) {
    IsAsciiLetter(c) || c == '²' || c == '³' || c == '°'
  }

  /** Every character of `t[a..b]` satisfies `p`. */
  predicate AllIn(t: string, a: int, b: int, p: char -> bool)
    requires 0 <= a <= b <= |t|
  {
    forall q :: a <= q < b ==> p(t[q])
  }

  /** The cell pattern `\s*[\d.\-+]+\s*[a-zA-Z²³°]+\s*`, anchored at both ends,
      matches `t` with the number group `t[i..j]` and the unit group `t[k..l]`. */
  ghost predicate CellPattern(t: string, i: int, j: int, k: int, l: int) {
    0 <= i < j <= k < l <= |t|
    && AllIn(t, 0, i, IsSpace) && AllIn(t, i, j, IsNumberChar) && AllIn(t, j, k, IsSpace)
    && AllIn(t, k, l, IsUnitChar) && AllIn(t, l, |t|, IsSpace)
  }

  ghost predicate MatchesCell(t: string) {
    exists i, j, k, l :: CellPattern(t, i, j, k, l)
  }

  /** Length of the leading run of characters satisfying `p`. */
  function RunLength(s: string, p: char -> bool): (n: nat)
    ensures n <= |s|
    ensures forall q :: 0 <= q < n ==> p(s[q])
    ensures n < |s| ==> !p(s[n])
  {
    if s == [] || !p(s[0]) then 0 else 1 + RunLength(s[1..], p)
  }

  /** End of the run of `p` characters starting at `a`. */
  function RunEnd(t: string, a: nat, p: char -> bool): (b: nat)
    requires a <= |t|
    ensures a <= b <= |t| && AllIn(t, a, b, p)
    ensures b < |t| ==> !p(t[b])
  {
    var n := RunLength(t[a..], p);
    assert forall q :: a <= q < a + n ==> t[q] == t[a..][q - a];
    assert a + n < |t| ==> t[a + n] == t[a..][n];
    a + n
  }

  /** A run of `p` characters from `a` that stops at `b` ends where the scan does. */
  lemma RunEndUnique(t: string, a: nat, b: nat, p: char -> bool)
    requires a <= b <= |t| && AllIn(t, a, b, p)
    requires b == |t| || !p(t[b])
    ensures RunEnd(t, a, p) == b
  {
  }

  /** The scanner: skip blanks, take the number run, skip blanks, take the unit
      run, and require only blanks after it. */
  function ScanCell(t: string): Option<(string, string)> {
    var i := RunEnd(t, 0, IsSpace);
    var j := RunEnd(t, i, IsNumberChar);
    var k := RunEnd(t, j, IsSpace);
    var l := RunEnd(t, k, IsUnitChar);
    if i < j && k < l && RunEnd(t, l, IsSpace) == |t| then Some((t[i..j], t[k..l])) else None
  }

  /** The scanner accepts exactly the strings the pattern matches, and returns
      the groups of every match; in particular the groups are unique, because
      digits, blanks and unit letters are disjoint classes. */
  lemma ScanCellCorrect(t: string)
    ensures ScanCell(t).Some? <==> MatchesCell(t)
    ensures forall i, j, k, l :: CellPattern(t, i, j, k, l) ==> ScanCell(t) == Some((t[i..j], t[k..l]))
  {
    var i0 := RunEnd(t, 0, IsSpace);
    var j0 := RunEnd(t, i0, IsNumberChar);
    var k0 := RunEnd(t, j0, IsSpace);
    var l0 := RunEnd(t, k0, IsUnitChar);
    if ScanCell(t).Some? {
      assert CellPattern(t, i0, j0, k0, l0);
    }
    forall i, j, k, l | CellPattern(t, i, j, k, l) ensures ScanCell(t) == Some((t[i..j], t[k..l])) {
      ScanCellGroups(t, i, j, k, l);
    }
  }

  lemma ScanCellGroups(t: string, i: int, j: int, k: int, l: int)
    requires CellPattern(t, i, j, k, l)
    ensures ScanCell(t) == Some((t[i..j], t[k..l]))
  {
    assert IsNumberChar(t[i]);
    RunEndUnique(t, 0, i, IsSpace);
    assert j < k ==> IsSpace(t[j]);
    assert IsUnitChar(t[k]);
    RunEndUnique(t, i, j, IsNumberChar);
    RunEndUnique(t, j, k, IsSpace);
    assert l < |t| ==> IsSpace(t[l]);
    RunEndUnique(t, k, l, IsUnitChar);
    RunEndUnique(t, l, |t|, IsSpace);
  }

  /** `_looks_like_parameter`: the cell is non-empty and its stripped text
      matches the cell pattern. */
  function LooksLikeParameter(content: string): (b: bool)
    ensures b <==> MatchesCell(Strip(content))
  {
    ScanCellCorrect(Strip(content));
    content != [] && ScanCell(Strip(content)).Some?
  }

  /** `_parse_spreadsheet_parameter`: the same pattern with groups; the number
      is read by `parseFloat` (Python's `float`, which may fail) and the unit
      converted to CalcsLive notation. */
  function ParseSpreadsheetParameter(
    sheetName: string, sheetLabel: string, cellAddr: string, content: string,
    parseFloat: string -> Option<real>): (r: Option<ExtractedParam>)
    ensures !LooksLikeParameter(content) ==> r.None?
    ensures forall i, j, k, l :: CellPattern(Strip(content), i, j, k, l) ==>
      (r.Some? <==> parseFloat(Strip(content)[i..j]).Some?)
      && (r.Some? ==> r.value.value == parseFloat(Strip(content)[i..j]).value
                      && r.value.originalUnit == Some(Strip(content)[k..l])
                      && r.value.unit == ConvertUnit(Strip(content)[k..l]))
    ensures r.Some? ==>
      (r.value.sourceObject == sheetName && r.value.sourceLabel == sheetLabel
       && r.value.propertyName == cellAddr && r.value.propertyType == "Spreadsheet::Cell"
       && r.value.cellAddress == Some(cellAddr) && !r.value.inferredUnit)
  {
    ScanCellCorrect(Strip(content));
    match ScanCell(Strip(content))
    case None => None
    case Some((num, unit)) =>
      match parseFloat(num)
      case None => None
      case Some(v) =>
        Some(ExtractedParam(v, ConvertUnit(unit), sheetName, sheetLabel, cellAddr,
          "Spreadsheet::Cell", Some(unit), false, Some(cellAddr)))
  }

  /** `format_for_calcslive`: the same keys, each reduced to its value and unit. */
  function FormatForCalcsLive(parameters: map<string, ExtractedParam>): (r: map<string, ValueUnit>)
    ensures r.Keys == parameters.Keys
    ensures forall name :: name in r ==>
      r[name].value == parameters[name].value && r[name].unit == parameters[name].unit
  {
    map name | name in parameters :: ValueUnit(parameters[name].value, parameters[name].unit)
  }
}
