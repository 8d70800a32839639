/** The unit mapper: units go to the calculator as they are (except `deg`),
    and results come back converted to the CAD system's internal units. */
module UnitMapper {

  import opened Json

  const Degree: string := "°"

  /** `freecad_to_calcslive_direct`: only `deg` is renamed. */
  function ToCalcsLive(unit: string): (r: string)
    ensures unit == "deg" ==> r == Degree
    ensures unit != "deg" ==> r == unit
  {
    if unit == "deg" then Degree else unit
  }

  /** Renaming twice is renaming once. */
  lemma ToCalcsLiveIdempotent(unit: string)
    ensures ToCalcsLive(ToCalcsLive(unit)) == ToCalcsLive(unit)
  {
    assert Degree != "deg";
  }

  /** The conversion factors to internal units. */
  const InternalFactors: map<string, real> := map[
    "mm" := 1.0, "cm" := 10.0, "m" := 1000.0, "in" := 25.4, "ft" := 304.8,
    "°" := 1.0, "deg" := 1.0, "rad" := 57.29578,
    "mm²" := 1.0, "cm²" := 100.0, "m²" := 1000000.0, "in²" := 645.16, "ft²" := 92903.04,
    "mm³" := 1.0, "cm³" := 1000.0, "L" := 1000000.0, "m³" := 1000000000.0, "in³" := 16387.064,
    "ft³" := 28316846.6
  ]

  const LengthUnits: set<string> := {"mm", "cm", "m", "in", "ft"}
  const AngleUnits: set<string> := {"°", "deg", "rad"}
  const AreaUnits: set<string> := {"mm²", "cm²", "m²", "in²", "ft²"}
  const VolumeUnits: set<string> := {"mm³", "cm³", "L", "m³", "in³", "ft³"}

  /** The internal unit of a known unit's group; the last branch keeps the
      unit itself. */
  function InternalUnit(unit: string): string {
    if unit in LengthUnits then "mm"
    else if unit in AngleUnits then "deg"
    else if unit in AreaUnits then "mm²"
    else if unit in VolumeUnits then "mm³"
    else unit
  }

  /** The table's keys are exactly the four groups, so the last branch of
      `InternalUnit` is never taken for a known unit. */
  lemma TableKeysGrouped()
    ensures InternalFactors.Keys == LengthUnits + AngleUnits + AreaUnits + VolumeUnits
  {}

  /** `calcslive_to_freecad_internal`. */
  function ToInternal(value: real, unit: string): (r: (real, string))
    ensures unit !in InternalFactors ==> r == (value, unit)
    ensures unit in InternalFactors ==>
      && r.0 == value * InternalFactors[unit]
      && r.1 in {"mm", "deg", "mm²", "mm³"}
  {
    if unit in InternalFactors then
      TableKeysGrouped();
      (value * InternalFactors[unit], InternalUnit(unit))
    else (value, unit)
  }

  /** Units already internal come back with the value unchanged. */
  lemma InternalUnitsKeepValue(value: real, unit: string)
    requires unit in {"mm", "deg", "°", "mm²", "mm³"}
    ensures ToInternal(value, unit).0 == value
  {}

  /** A unit sent to the calculator and read back lands in its group's
      internal unit. */
  lemma RoundTripGroup(value: real, unit: string)
    requires unit in LengthUnits + AngleUnits + AreaUnits + VolumeUnits
    ensures ToInternal(value, ToCalcsLive(unit)).1 == InternalUnit(unit)
  {
    TableKeysGrouped();
  }

  // ---------------------------------------------------------------------
  // Parameter lists

  type Param = map<string, Json>

  const UnitKey: string := "unit"
  const CalcsLiveUnitKey: string := "calcslive_unit"
  const UnitMappedKey: string := "unit_mapped"

  /** `freecad_to_calcslive_direct` on whatever the record holds: a value
      other than the string `deg` passes through. */
  function ToCalcsLiveValue(u: Json): (r: Json)
    ensures r != u <==> u == JStr("deg")
  {
    if u == JStr("deg") then JStr(Degree) else u
  }

  /** One record of `map_parameter_units`. */
  function MapParameter(p: Param): (r: Param)
    ensures r.Keys == p.Keys + {CalcsLiveUnitKey, UnitMappedKey}
    ensures forall k :: k in p && k != CalcsLiveUnitKey && k != UnitMappedKey ==> r[k] == p[k]
    ensures r[UnitMappedKey] == JBool(Get(p, UnitKey, JStr("")) == JStr("deg"))
    ensures r[CalcsLiveUnitKey] == ToCalcsLiveValue(Get(p, UnitKey, JStr("")))
  {
    var original := Get(p, UnitKey, JStr(""));
    var mapped := ToCalcsLiveValue(original);
    p[CalcsLiveUnitKey := mapped][UnitMappedKey := JBool(mapped != original)]
  }

  /** `map_parameter_units`: a new list of extended copies, same length and
      order. */
  function MapParameterUnits(ps: seq<Param>): (r: seq<Param>)
    ensures |r| == |ps|
    ensures forall i :: 0 <= i < |ps| ==> r[i] == MapParameter(ps[i])
  {
    if ps == [] then [] else [MapParameter(ps[0])] + MapParameterUnits(ps[1..])
  }

  datatype Summary = Summary(totalParameters: nat, unitMappingsApplied: nat, directPassthrough: int)

  /** The number of records whose `unit_mapped` is truthy. */
  function MappedCount(ps: seq<Param>): (n: nat)
    ensures n <= |ps|
  {
    if ps == [] then 0
    else (if Truthy(Get(ps[0], UnitMappedKey, JBool(false))) then 1 else 0) + MappedCount(ps[1..])
  }

  /** `create_parameter_summary`. */
  function CreateParameterSummary(ps: seq<Param>): (r: Summary)
    ensures r.totalParameters == |ps|
    ensures r.unitMappingsApplied <= r.totalParameters
    ensures r.directPassthrough == r.totalParameters - r.unitMappingsApplied
    ensures r.directPassthrough >= 0
  {
    var mapped := MappedCount(ps);
    Summary(|ps|, mapped, |ps| - mapped)
  }

  /** The number of records whose unit is `deg`. */
  function DegreeCount(ps: seq<Param>): nat {
    if ps == [] then 0
    else (if Get(ps[0], UnitKey, JStr("")) == JStr("deg") then 1 else 0) + DegreeCount(ps[1..])
  }

  /** Summarising mapped records counts exactly the degree units. */
  lemma {:induction false} SummaryCountsDegrees(ps: seq<Param>)
    ensures CreateParameterSummary(MapParameterUnits(ps)).unitMappingsApplied == DegreeCount(ps)
  {
    if ps != [] {
      SummaryCountsDegrees(ps[1..]);
      assert MapParameterUnits(ps)[1..] == MapParameterUnits(ps[1..]);
    }
  }
}
