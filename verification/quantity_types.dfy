/** The table of CAD property types with their base units and categories,
    the base-unit mappings derived from it, and the filter that keeps the
    "clean" quantity types. The operations take the table as a parameter
    (an association list with distinct keys, in dict order); `KnownTypes`
    is the table the helper ships. */
module QuantityTypes {

  import opened Wrappers
  import opened Text
  import opened Seqs

  datatype TypeInfo = TypeInfo(baseUnit: Option<string>, category: string, calcsliveCategory: Option<string>)

  function Quantity(unit: string, category: string): TypeInfo {
    TypeInfo(Some(unit), category, Some(category))
  }

  function NonQuantity(category: string): TypeInfo {
    TypeInfo(None, category, None)
  }

  const KnownTypes: seq<(string, TypeInfo)> := [
    ("App::PropertyLength", Quantity("mm", "Length")),
    ("App::PropertyDistance", Quantity("mm", "Length")),
    ("App::PropertyArea", Quantity("mm²", "Area")),
    ("App::PropertyVolume", Quantity("mm³", "Volume")),
    ("App::PropertyMass", Quantity("kg", "Mass")),
    ("App::PropertyDensity", Quantity("kg/mm³", "Density")),
    ("App::PropertyAngle", Quantity("rad", "Angle")),
    ("App::PropertyForce", Quantity("N", "Force")),
    ("App::PropertyPressure", Quantity("Pa", "Pressure")),
    ("App::PropertySpeed", Quantity("mm/s", "Velocity")),
    ("App::PropertyAcceleration", Quantity("mm/s²", "Acceleration")),
    ("App::PropertyPower", Quantity("W", "Power")),
    ("App::PropertyTime", Quantity("s", "Time")),
    ("App::PropertyFrequency", Quantity("Hz", "Frequency")),
    ("App::PropertyTemperature", Quantity("K", "Temperature")),
    ("App::PropertyStress", Quantity("Pa", "Pressure")),
    ("App::PropertyVolumeFlowRate", Quantity("mm³/s", "VolumeFlowRate")),
    ("App::PropertyVelocity", Quantity("mm/s", "Velocity")),
    ("App::PropertyEnergy", Quantity("J", "Energy")),
    ("App::PropertyQuantity", Quantity("1", "Dimensionless")),
    ("App::PropertyQuantityConstraint", Quantity("1", "Dimensionless")),
    ("App::PropertyFloat", NonQuantity("Numeric")),
    ("App::PropertyInteger", NonQuantity("Numeric")),
    ("App::PropertyBool", NonQuantity("Boolean")),
    ("App::PropertyString", NonQuantity("Text")),
    ("App::PropertyVector", NonQuantity("Vector")),
    ("App::PropertyVectorDistance", NonQuantity("Vector")),
    ("App::PropertyPlacement", NonQuantity("Placement")),
    ("App::PropertyRotation", NonQuantity("Rotation")),
    ("App::PropertyMaterial", NonQuantity("Material")),
    ("App::PropertyColor", NonQuantity("Color"))
  ]

  /** A table is a dict: no property type is listed twice. */
  predicate IsDict(types: seq<(string, TypeInfo)>) {
    NoDup(Keys(types))
  }

  /** `calcslive_base_units` of `get_calcslive_base_unit`. */
  const CalcsLiveBaseUnits: map<string, string> := map[
    "Length" := "m", "Area" := "m²", "Volume" := "m³", "Mass" := "kg", "Density" := "kg/m³",
    "Angle" := "rad", "Force" := "N", "Pressure" := "Pa", "Velocity" := "m/s",
    "Acceleration" := "m/s²", "Energy" := "J", "Power" := "W", "Time" := "s",
    "Frequency" := "Hz", "Temperature" := "K", "VolumeFlowRate" := "m³/s",
    "ThermalConductivity" := "W/(m·K)", "ThermalExpansion" := "1/K",
    "SpecificHeat" := "J/(kg·K)", "ElectricCurrent" := "A", "ElectricPotential" := "V",
    "Dimensionless" := "1"
  ]

  /** `get_calcslive_base_unit`. */
  function CalcsLiveBaseUnit(category: string): (r: Option<string>)
    ensures r.None? <==> category !in CalcsLiveBaseUnits
    ensures r.Some? ==> r.value == CalcsLiveBaseUnits[category]
  {
    if category in CalcsLiveBaseUnits then Some(CalcsLiveBaseUnits[category]) else None
  }

  const Pi: real := 3.14159265359

  /** `conversion_factors` of `get_conversion_factor`. */
  const ConversionFactors: map<(string, string), real> := map[
    ("mm", "m") := 0.001, ("cm", "m") := 0.01, ("m", "m") := 1.0,
    ("mm²", "m²") := 0.000001, ("cm²", "m²") := 0.0001, ("m²", "m²") := 1.0,
    ("mm³", "m³") := 0.000000001, ("cm³", "m³") := 0.000001, ("m³", "m³") := 1.0,
    ("kg", "kg") := 1.0, ("g", "kg") := 0.001,
    ("kg/mm³", "kg/m³") := 1000000000.0, ("kg/cm³", "kg/m³") := 1000000.0, ("kg/m³", "kg/m³") := 1.0,
    ("rad", "rad") := 1.0, ("deg", "rad") := Pi / 180.0,
    ("mm/s", "m/s") := 0.001, ("m/s", "m/s") := 1.0,
    ("mm/s²", "m/s²") := 0.001, ("m/s²", "m/s²") := 1.0,
    ("mm³/s", "m³/s") := 0.000000001, ("m³/s", "m³/s") := 1.0,
    ("Pa", "Pa") := 1.0, ("kPa", "Pa") := 1000.0, ("MPa", "Pa") := 1000000.0,
    ("N", "N") := 1.0, ("J", "J") := 1.0, ("W", "W") := 1.0, ("s", "s") := 1.0,
    ("Hz", "Hz") := 1.0, ("K", "K") := 1.0, ("A", "A") := 1.0, ("V", "V") := 1.0,
    ("1", "1") := 1.0
  ]

  /** `get_conversion_factor`: the table value, or 1 for any other pair. */
  function ConversionFactor(from: string, to: string): (r: real)
    ensures (from, to) in ConversionFactors ==> r == ConversionFactors[(from, to)]
    ensures (from, to) !in ConversionFactors ==> r == 1.0
  {
    if (from, to) in ConversionFactors then ConversionFactors[(from, to)] else 1.0
  }

  /** Converting a unit to itself never scales. */
  lemma ConversionToSelf(unit: string)
    ensures ConversionFactor(unit, unit) == 1.0
  {}

  /** `get_property_info(t).get("base_unit") is not None`. */
  function IsQuantityType(types: seq<(string, TypeInfo)>, propertyType: string): (r: bool)
    requires IsDict(types)
    ensures r <==> exists i :: 0 <= i < |types| && types[i].0 == propertyType && types[i].1.baseUnit.Some?
  {
    match Lookup(types, propertyType)
    case None => false
    case Some(info) =>
      var k :| 0 <= k < |types| && types[k] == (propertyType, info);
      assert forall i :: 0 <= i < |types| && types[i].0 == propertyType ==> i == k by {
        forall i | 0 <= i < |types| && types[i].0 == propertyType ensures i == k {
          assert Keys(types)[i] == Keys(types)[k];
        }
      }
      info.baseUnit.Some?
  }

  /** A type missing from the table is not a quantity. */
  lemma UnknownIsNotQuantity(types: seq<(string, TypeInfo)>, propertyType: string)
    requires IsDict(types) && propertyType !in Keys(types)
    ensures !IsQuantityType(types, propertyType)
  {
    forall i | 0 <= i < |types| ensures types[i].0 != propertyType {
      assert Keys(types)[i] == types[i].0;
    }
  }

  // ---------------------------------------------------------------------
  // Base-unit mappings

  /** Whether an entry opens a base-unit mapping: a non-empty base unit and
      a CalcsLive category with a known, non-empty CalcsLive base unit. */
  predicate Qualifies(info: TypeInfo) {
    && info.baseUnit.Some? && info.baseUnit.value != []
    && info.calcsliveCategory.Some? && info.calcsliveCategory.value != []
    && CalcsLiveBaseUnit(info.calcsliveCategory.value).Some?
    && CalcsLiveBaseUnit(info.calcsliveCategory.value).value != []
  }

  /** The (base unit, CalcsLive base unit) pairs of the qualifying entries,
      in table order. */
  function QualifyingUnits(types: seq<(string, TypeInfo)>): (r: seq<(string, string)>)
    ensures forall u :: u in Keys(r) <==> exists i :: 0 <= i < |types| && Qualifies(types[i].1) && types[i].1.baseUnit.value == u
    ensures forall k :: 0 <= k < |r| ==> exists i :: 0 <= i < |types| && Qualifies(types[i].1) && r[k] == BasePair(types[i].1)
  {
    if types == [] then []
    else
      var info := types[0].1;
      var rest := QualifyingUnits(types[1..]);
      assert forall i :: 1 <= i < |types| ==> types[i] == types[1..][i - 1];
      var head := if Qualifies(info) then [BasePair(info)] else [];
      assert Keys(head + rest) == Keys(head) + Keys(rest);
      forall k | 0 <= k < |head + rest|
        ensures exists i :: 0 <= i < |types| && Qualifies(types[i].1) && (head + rest)[k] == BasePair(types[i].1)
      {
        if k < |head| {
          assert (head + rest)[k] == BasePair(types[0].1);
        } else {
          var j :| 0 <= j < |types[1..]| && Qualifies(types[1..][j].1) && rest[k - |head|] == BasePair(types[1..][j].1);
          assert types[j + 1] == types[1..][j];
          assert (head + rest)[k] == BasePair(types[j + 1].1);
        }
      }
      head + rest
  }

  /** The pair a qualifying entry contributes: its base unit and the
      CalcsLive base unit of its category. */
  function BasePair(info: TypeInfo): (string, string)
    requires Qualifies(info)
  {
    (info.baseUnit.value, CalcsLiveBaseUnit(info.calcsliveCategory.value).value)
  }

  /** The names of the entries whose base unit is `u`, in table order. */
  function TypesWithUnit(types: seq<(string, TypeInfo)>, u: string): (r: seq<string>)
    ensures forall name :: name in r <==> exists i :: 0 <= i < |types| && types[i].0 == name && types[i].1.baseUnit == Some(u)
  {
    if types == [] then []
    else
      var rest := TypesWithUnit(types[1..], u);
      assert forall i :: 1 <= i < |types| ==> types[i] == types[1..][i - 1];
      (if types[0].1.baseUnit == Some(u) then [types[0].0] else []) + rest
  }

  /** The types under a base unit keep table order: of two listed names,
      the earlier one comes from an earlier entry. */
  lemma {:induction false} TypesWithUnitInOrder(types: seq<(string, TypeInfo)>, u: string, a: nat, b: nat) returns (i: nat, j: nat)
    requires a < b < |TypesWithUnit(types, u)|
    ensures i < j < |types|
    ensures HasUnit(types[i], u, TypesWithUnit(types, u)[a]) && HasUnit(types[j], u, TypesWithUnit(types, u)[b])
  {
    var rest := TypesWithUnit(types[1..], u);
    var head := if types[0].1.baseUnit == Some(u) then [types[0].0] else [];
    assert TypesWithUnit(types, u) == head + rest;
    if a < |head| {
      var nb := rest[b - 1];
      assert nb in rest;
      var j' :| 0 <= j' < |types[1..]| && types[1..][j'].0 == nb && types[1..][j'].1.baseUnit == Some(u);
      i, j := 0, j' + 1;
    } else {
      var i', j' := TypesWithUnitInOrder(types[1..], u, a - |head|, b - |head|);
      i, j := i' + 1, j' + 1;
    }
  }

  /** Whether a table entry is the type `name` with base unit `u`. */
  predicate HasUnit(entry: (string, TypeInfo), u: string, name: string) {
    entry.0 == name && entry.1.baseUnit == Some(u)
  }

  /** In a dict every type with base unit `u` is listed once. */
  lemma {:induction false} TypesWithUnitOnce(types: seq<(string, TypeInfo)>, u: string, i: nat)
    requires IsDict(types) && i < |types| && types[i].1.baseUnit == Some(u)
    ensures Count(TypesWithUnit(types, u), types[i].0) == 1
  {
    var rest := TypesWithUnit(types[1..], u);
    assert NoDup(Keys(types[1..])) by {
      forall a, b | 0 <= a < b < |types[1..]| ensures Keys(types[1..])[a] != Keys(types[1..])[b] {
        assert Keys(types)[a + 1] != Keys(types)[b + 1];
      }
    }
    var name := types[i].0;
    var head := if types[0].1.baseUnit == Some(u) then [types[0].0] else [];
    assert TypesWithUnit(types, u) == head + rest;
    if i == 0 {
      assert name !in rest by {
        forall j | 0 <= j < |types[1..]| ensures types[1..][j].0 != name {
          DistinctKeysAt(types, j + 1, 0);
        }
      }
      assert (head + rest)[1..] == rest;
    } else {
      assert types[0].0 != name by { assert Keys(types)[0] != Keys(types)[i]; }
      TypesWithUnitOnce(types[1..], u, i - 1);
      if head != [] { assert (head + rest)[1..] == rest; } else { assert head + rest == rest; }
    }
  }

  /** The emptiness test on the CalcsLive base unit never decides: an entry
      qualifies exactly when its category has a CalcsLive base unit. */
  lemma QualifiesIffKnownCategory(info: TypeInfo)
    ensures Qualifies(info) <==>
      && info.baseUnit.Some? && info.baseUnit.value != []
      && info.calcsliveCategory.Some? && info.calcsliveCategory.value in CalcsLiveBaseUnits
  {
    if info.calcsliveCategory.Some? && info.calcsliveCategory.value in CalcsLiveBaseUnits {
      assert CalcsLiveBaseUnits[info.calcsliveCategory.value] != [];
    }
  }

  /** Every quantity type of the shipped table opens a base-unit mapping
      and passes the clean filter. */
  lemma KnownQuantitiesQualify(i: nat)
    requires i < |KnownTypes| && KnownTypes[i].1.baseUnit.Some?
    ensures Qualifies(KnownTypes[i].1) && IsClean(KnownTypes[i].1)
  {
    QualifiesIffKnownCategory(KnownTypes[i].1);
    var u := KnownTypes[i].1.baseUnit.value;
    assert u != [] && u[0] != 'U';
    assert !IsPrefix("Unit:", u) by {
      if |u| >= 5 { assert u[..5][0] == u[0]; }
    }
  }

  datatype BaseMapping = BaseMapping(calcsliveBase: string, conversionFactor: real, propertyTypes: seq<string>)

  /** `get_base_unit_mappings` over a table. */
  function BaseUnitMappings(types: seq<(string, TypeInfo)>): (r: map<string, BaseMapping>)
    ensures forall u :: u in r <==> exists i :: 0 <= i < |types| && Qualifies(types[i].1) && types[i].1.baseUnit.value == u
    ensures forall u :: u in r ==>
      && r[u].propertyTypes == TypesWithUnit(types, u)
      && r[u].conversionFactor == ConversionFactor(u, r[u].calcsliveBase)
  {
    var first := ToMap(QualifyingUnits(types));
    map u | u in first :: BaseMapping(first[u], ConversionFactor(u, first[u]), TypesWithUnit(types, u))
  }

  /** A base unit's CalcsLive unit comes from the last qualifying entry with
      that base unit. */
  lemma BaseMappingFromLastEntry(types: seq<(string, TypeInfo)>, u: string)
    requires u in BaseUnitMappings(types)
    ensures exists i :: IsLastKey(QualifyingUnits(types), i, u)
                     && BaseUnitMappings(types)[u].calcsliveBase == QualifyingUnits(types)[i].1
  {
    ToMapValue(QualifyingUnits(types), u);
  }

  /** A base unit's CalcsLive unit is the CalcsLive base unit of the
      category of a qualifying table entry with that base unit. */
  lemma BaseIsCategoryUnit(types: seq<(string, TypeInfo)>, u: string) returns (j: nat)
    requires u in BaseUnitMappings(types)
    ensures j < |types| && Qualifies(types[j].1) && types[j].1.baseUnit.value == u
    ensures BaseUnitMappings(types)[u].calcsliveBase == CalcsLiveBaseUnit(types[j].1.calcsliveCategory.value).value
  {
    var q := QualifyingUnits(types);
    ToMapValue(q, u);
    var i :| IsLastKey(q, i, u) && ToMap(q)[u] == q[i].1;
    j :| 0 <= j < |types| && Qualifies(types[j].1) && q[i] == BasePair(types[j].1);
  }

  /** Every type with a mapped base unit is listed exactly once under it,
      and under no other base unit. */
  lemma MappedTypesListedOnce(types: seq<(string, TypeInfo)>, i: nat, v: string)
    requires IsDict(types) && i < |types| && types[i].1.baseUnit.Some?
    requires types[i].1.baseUnit.value in BaseUnitMappings(types)
    requires v in BaseUnitMappings(types) && v != types[i].1.baseUnit.value
    ensures Count(BaseUnitMappings(types)[types[i].1.baseUnit.value].propertyTypes, types[i].0) == 1
    ensures types[i].0 !in BaseUnitMappings(types)[v].propertyTypes
  {
    TypesWithUnitOnce(types, types[i].1.baseUnit.value, i);
    forall j | 0 <= j < |types| && types[j].1.baseUnit == Some(v) ensures types[j].0 != types[i].0 {
      DistinctKeysAt(types, i, j);
    }
  }

  // ---------------------------------------------------------------------
  // Clean quantity types

  /** The four conditions of the clean filter. */
  predicate IsClean(info: TypeInfo) {
    && info.baseUnit.Some? && info.baseUnit.value != []
    && info.calcsliveCategory.Some? && info.calcsliveCategory.value != []
    && !IsPrefix("Unit:", info.baseUnit.value)
    && |info.baseUnit.value| < 20
  }

  /** The clean entries, in table order. */
  function CleanEntries(types: seq<(string, TypeInfo)>): (r: seq<(string, TypeInfo)>)
    ensures forall e :: e in r <==> e in types && IsClean(e.1)
    ensures IsDict(types) ==> IsDict(r)
  {
    var r := Filter(types, (e: (string, TypeInfo)) => IsClean(e.1));
    assert IsDict(types) ==> IsDict(r) by {
      if IsDict(types) { FilterKeysNoDup(types, (e: (string, TypeInfo)) => IsClean(e.1)); }
    }
    assert forall e :: e in types && IsClean(e.1) ==> e in r by {
      forall e | e in types && IsClean(e.1) ensures e in r {
        var i :| 0 <= i < |types| && types[i] == e;
      }
    }
    r
  }

  datatype CleanType = CleanType(freecadBaseUnit: string, calcsliveCategory: string, category: string, description: string)

  /** The record `clean_types` holds for a clean entry. */
  function CleanRecord(info: TypeInfo): (r: CleanType)
    requires IsClean(info)
    ensures r.freecadBaseUnit == info.baseUnit.value && r.calcsliveCategory == info.calcsliveCategory.value
    ensures r.description == "FreeCAD " + info.category + " property"
  {
    CleanType(info.baseUnit.value, info.calcsliveCategory.value, info.category, "FreeCAD " + info.category + " property")
  }

  const UsageExamples: map<string, seq<string>> := map[
    "mm" := ["diameter", "height", "thickness", "clearance"],
    "mm²" := ["cross_section", "surface_area", "face_area"],
    "mm³" := ["part_volume", "material_volume", "cavity_volume"],
    "kg" := ["part_mass", "total_weight", "material_mass"],
    "kg/mm³" := ["material_density", "bulk_density"],
    "rad" := ["rotation_angle", "taper_angle", "bend_angle"],
    "N" := ["applied_force", "reaction_force", "load"],
    "Pa" := ["pressure", "stress", "yield_strength"],
    "mm/s" := ["cutting_speed", "feed_rate", "velocity"],
    "mm/s²" := ["acceleration", "deceleration"],
    "mm³/s" := ["flow_rate", "pump_capacity"],
    "W" := ["motor_power", "heat_generation"],
    "s" := ["cycle_time", "operation_time"],
    "Hz" := ["rotation_frequency", "vibration_frequency"],
    "K" := ["operating_temperature", "ambient_temperature"],
    "J" := ["energy", "work_done"]
  ]

  datatype UnitSummary = UnitSummary(freecadBaseUnit: string, calcsliveCategory: string,
                                     propertyTypes: seq<string>, usageExamples: seq<string>)

  /** The CalcsLive category of the first clean entry with base unit `u`:
      the summary entry for a unit is created by its first clean type. */
  function FirstCategory(types: seq<(string, TypeInfo)>, u: string): (r: Option<string>)
    ensures r.Some? <==> exists i :: 0 <= i < |types| && IsClean(types[i].1) && types[i].1.baseUnit == Some(u)
  {
    if types == [] then None
    else if IsClean(types[0].1) && types[0].1.baseUnit == Some(u) then Some(types[0].1.calcsliveCategory.value)
    else
      var r := FirstCategory(types[1..], u);
      assert forall i :: 1 <= i < |types| ==> types[i] == types[1..][i - 1];
      r
  }

  /** The first clean entry with a base unit decides its category. */
  lemma {:induction false} FirstCategoryOfFirst(types: seq<(string, TypeInfo)>, i: nat)
    requires i < |types| && IsClean(types[i].1)
    requires forall j :: 0 <= j < i ==> !(IsClean(types[j].1) && types[j].1.baseUnit == types[i].1.baseUnit)
    ensures FirstCategory(types, types[i].1.baseUnit.value) == types[i].1.calcsliveCategory
  {
    if i > 0 {
      FirstCategoryOfFirst(types[1..], i - 1);
    }
  }

  /** The base units of the clean entries. */
  function CleanBaseUnits(types: seq<(string, TypeInfo)>): (r: set<string>)
    ensures forall u :: u in r <==> exists i :: 0 <= i < |types| && IsClean(types[i].1) && types[i].1.baseUnit == Some(u)
  {
    set i | 0 <= i < |types| && IsClean(types[i].1) :: types[i].1.baseUnit.value
  }

  /** `base_units_summary`: one entry per clean base unit. */
  function BaseUnitsSummary(types: seq<(string, TypeInfo)>): (r: map<string, UnitSummary>)
    ensures forall u :: u in r <==> exists i :: 0 <= i < |types| && IsClean(types[i].1) && types[i].1.baseUnit == Some(u)
    ensures forall u :: u in r ==>
      && r[u].freecadBaseUnit == u
      && Some(r[u].calcsliveCategory) == FirstCategory(types, u)
      && r[u].propertyTypes == TypesWithUnit(CleanEntries(types), u)
      && r[u].usageExamples == (if u in UsageExamples then UsageExamples[u] else [])
  {
    map u | u in CleanBaseUnits(types) ::
      UnitSummary(u, FirstCategory(types, u).value, TypesWithUnit(CleanEntries(types), u),
                  if u in UsageExamples then UsageExamples[u] else [])
  }

  /** `clean_types`: a record per clean entry, in table order. */
  function CleanRecords(types: seq<(string, TypeInfo)>): (r: seq<(string, CleanType)>)
    ensures |r| <= |types|
    ensures forall name, c :: (name, c) in r <==>
      exists i :: 0 <= i < |types| && types[i].0 == name && IsClean(types[i].1) && c == CleanRecord(types[i].1)
  {
    if types == [] then []
    else
      var rest := CleanRecords(types[1..]);
      assert forall i :: 1 <= i < |types| ==> types[i] == types[1..][i - 1];
      (if IsClean(types[0].1) then [(types[0].0, CleanRecord(types[0].1))] else []) + rest
  }

  datatype CleanReport = CleanReport(
    cleanTypes: seq<(string, CleanType)>,
    baseUnitsSummary: map<string, UnitSummary>,
    totalCleanTypes: nat,
    uniqueBaseUnits: nat,
    excludedComplexTypes: nat)

  /** `get_clean_quantity_types` over a table, with its statistics. */
  function GetCleanQuantityTypes(types: seq<(string, TypeInfo)>): (r: CleanReport)
    ensures r.cleanTypes == CleanRecords(types) && r.baseUnitsSummary == BaseUnitsSummary(types)
    ensures r.totalCleanTypes == |r.cleanTypes|
    ensures r.uniqueBaseUnits == |r.baseUnitsSummary.Keys|
    ensures r.totalCleanTypes + r.excludedComplexTypes == |types|
  {
    var records := CleanRecords(types);
    var summary := BaseUnitsSummary(types);
    CleanReport(records, summary, |records|, |summary.Keys|, |types| - |records|)
  }

  /** Every clean type is listed in exactly one summary entry: once under its
      own base unit and under no other. */
  lemma CleanTypeListedOnce(types: seq<(string, TypeInfo)>, i: nat, v: string)
    requires IsDict(types) && i < |types| && IsClean(types[i].1)
    requires v in BaseUnitsSummary(types) && v != types[i].1.baseUnit.value
    ensures types[i].1.baseUnit.value in BaseUnitsSummary(types)
    ensures Count(BaseUnitsSummary(types)[types[i].1.baseUnit.value].propertyTypes, types[i].0) == 1
    ensures types[i].0 !in BaseUnitsSummary(types)[v].propertyTypes
  {
    var clean := CleanEntries(types);
    var u := types[i].1.baseUnit.value;
    assert types[i] in clean;
    var k :| 0 <= k < |clean| && clean[k] == types[i];
    TypesWithUnitOnce(clean, u, k);
    forall j | 0 <= j < |clean| && clean[j].1.baseUnit == Some(v) ensures clean[j].0 != types[i].0 {
      DistinctKeysAt(clean, k, j);
    }
  }
}
