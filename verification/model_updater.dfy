/** The host-independent part of the model updater: converting CalcsLive
    units back to FreeCAD notation, matching CalcsLive symbols to extracted
    parameter names, building the symbol-to-parameter mapping, counting the
    outcome of an update run and ranking mapping suggestions. */
module ModelUpdater {

  import opened Wrappers
  import opened Text
  import opened Seqs
  import opened ParameterExtractor

  // ---------------------------------------------------------------------
  // Units, CalcsLive notation back to FreeCAD notation

  /** The direct CalcsLive-to-FreeCAD unit table. */
  function UnitTableBack(u: string): Option<string> {
    match u
    case "mm" => Some("mm")
    case "cm" => Some("cm")
    case "m" => Some("m")
    case "km" => Some("km")
    case "in" => Some("in")
    case "ft" => Some("ft")
    case "°" => Some("deg")
    case "rad" => Some("rad")
    case "mm²" => Some("mm^2")
    case "cm²" => Some("cm^2")
    case "m²" => Some("m^2")
    case "mm³" => Some("mm^3")
    case "cm³" => Some("cm^3")
    case "m³" => Some("m^3")
    case "kg" => Some("kg")
    case "g" => Some("g")
    case "N" => Some("N")
    case "Pa" => Some("Pa")
    case "MPa" => Some("MPa")
    case "GPa" => Some("GPa")
    case _ => None
  }

  /** `²` and `³` written as `^2` and `^3`, in that order. */
  function Exponents(u: string): (r: string)
    ensures '²' !in r && '³' !in r
  {
    var once := ReplaceAll(u, "²", "^2");
    ReplaceRemoves(u, '²', "^2");
    ReplaceRemoves(once, '³', "^3");
    ReplaceKeepsAbsent(once, "³", "^3", '²');
    ReplaceAll(once, "³", "^3")
  }

  /** `_convert_unit_to_freecad`: empty stays empty, table entries are
      translated, otherwise superscripts become exponents. The result never
      holds a superscript. */
  function ConvertUnitToFreeCAD(calcsLiveUnit: string): (r: string)
    ensures calcsLiveUnit == [] <==> r == []
    ensures UnitTableBack(calcsLiveUnit).Some? ==> r == UnitTableBack(calcsLiveUnit).value
    ensures '²' !in r && '³' !in r
    ensures '²' !in calcsLiveUnit && '³' !in calcsLiveUnit && calcsLiveUnit != "°" ==> r == calcsLiveUnit
  {
    if calcsLiveUnit == [] then []
    else match UnitTableBack(calcsLiveUnit)
      case Some(v) => v
      case None =>
        assert '²' !in calcsLiveUnit && '³' !in calcsLiveUnit ==> Exponents(calcsLiveUnit) == calcsLiveUnit by {
          if '²' !in calcsLiveUnit && '³' !in calcsLiveUnit {
            ReplaceAbsent(calcsLiveUnit, "²", "^2");
            ReplaceAbsent(calcsLiveUnit, "³", "^3");
          }
        }
        Exponents(calcsLiveUnit)
  }

  /** Rewriting `^3` to `³` and rewriting `²` to `^2` do not interfere. */
  predicate Commutes(a: string) {
    ReplaceAll(ReplaceAll(a, "^3", "³"), "²", "^2") == ReplaceAll(ReplaceAll(a, "²", "^2"), "^3", "³")
  }

  lemma {:induction false} RewritesCommute(a: string)
    ensures Commutes(a)
    decreases |a|
  {
    if a == [] {
    } else if |a| >= 2 && a[..2] == "^3" {
      RewritesCommute(a[2..]);
      CommuteCaretThree(a);
    } else if a[0] == '²' {
      RewritesCommute(a[1..]);
      CommuteSquare(a);
    } else {
      RewritesCommute(a[1..]);
      CommuteOther(a);
    }
  }

  lemma CommuteCaretThree(a: string)
    requires |a| >= 2 && a[..2] == "^3" && Commutes(a[2..])
    ensures Commutes(a)
  {
    var x := ReplaceAll(a[2..], "^3", "³");
    ReplaceMatch(a, "^3", "³");
    ReplaceCons('³', x, "²", "^2");
    assert a == ['^'] + a[1..];
    ReplaceCons('^', a[1..], "²", "^2");
    assert a[1..] == ['3'] + a[2..];
    ReplaceCons('3', a[2..], "²", "^2");
    var y := ReplaceAll(a[2..], "²", "^2");
    assert ReplaceAll(a, "²", "^2") == "^3" + y;
    ReplaceMatch("^3" + y, "^3", "³");
    assert ("^3" + y)[2..] == y;
  }

  /** Rewriting `^3` first, then `²`, on a text that starts with `²`. */
  lemma {:induction false} SquareFirstLeft(rest: string)
    ensures ReplaceAll(ReplaceAll(['²'] + rest, "^3", "³"), "²", "^2")
         == "^2" + ReplaceAll(ReplaceAll(rest, "^3", "³"), "²", "^2")
  {
    assert !IsPrefix("^3", ['²'] + rest) by {
      if |['²'] + rest| >= 2 { assert (['²'] + rest)[..2][0] == '²'; }
    }
    ReplaceCons('²', rest, "^3", "³");
    ReplaceMatch(['²'] + ReplaceAll(rest, "^3", "³"), "²", "^2");
    assert (['²'] + ReplaceAll(rest, "^3", "³"))[1..] == ReplaceAll(rest, "^3", "³");
  }

  /** Rewriting `²` first, then `^3`, on a text that starts with `²`. */
  lemma {:induction false} SquareFirstRight(rest: string)
    ensures ReplaceAll(ReplaceAll(['²'] + rest, "²", "^2"), "^3", "³")
         == "^2" + ReplaceAll(ReplaceAll(rest, "²", "^2"), "^3", "³")
  {
    ReplaceMatch(['²'] + rest, "²", "^2");
    assert (['²'] + rest)[1..] == rest;
    CaretTwoHead(ReplaceAll(rest, "²", "^2"));
  }

  /** A `^2` in front is kept by the rewrite of `^3`. */
  lemma {:induction false} CaretTwoHead(y: string)
    ensures ReplaceAll("^2" + y, "^3", "³") == "^2" + ReplaceAll(y, "^3", "³")
  {
    assert "^2" + y == ['^'] + (['2'] + y);
    assert (['^'] + (['2'] + y))[1] == '2';
    ReplaceCons('^', ['2'] + y, "^3", "³");
    ReplaceCons('2', y, "^3", "³");
  }

  lemma CommuteSquare(a: string)
    requires a != [] && a[0] == '²' && Commutes(a[1..])
    ensures Commutes(a)
  {
    assert a == ['²'] + a[1..];
    SquareFirstLeft(a[1..]);
    SquareFirstRight(a[1..]);
  }

  /** The rewrite of `²` keeps a leading character other than `²`, so it
      never makes a `3` follow a caret. */
  lemma SquareRewriteHead(b: string)
    requires b != [] && b[0] != '²'
    ensures ReplaceAll(b, "²", "^2") == [b[0]] + ReplaceAll(b[1..], "²", "^2")
  {
    assert b == [b[0]] + b[1..];
    ReplaceCons(b[0], b[1..], "²", "^2");
  }

  lemma CommuteOther(a: string)
    requires a != [] && a[0] != '²' && !(|a| >= 2 && a[..2] == "^3") && Commutes(a[1..])
    ensures Commutes(a)
  {
    var c := a[0];
    assert a == [c] + a[1..];
    ReplaceCons(c, a[1..], "^3", "³");
    var x := ReplaceAll(a[1..], "^3", "³");
    ReplaceCons(c, x, "²", "^2");
    SquareRewriteHead(a);
    var y := ReplaceAll(a[1..], "²", "^2");
    if a[1..] != [] && a[1] == '²' {
      ReplaceMatch(a[1..], "²", "^2");
    } else if a[1..] != [] {
      SquareRewriteHead(a[1..]);
    }
    ReplaceCons(c, y, "^3", "³");
  }

  /** The superscript rewrite of the extractor is undone by the exponent
      rewrite of the updater, for units without superscripts of their own. */
  lemma ExponentsUndoSuperscripts(u: string)
    requires '²' !in u && '³' !in u
    ensures Exponents(Superscripts(u)) == u
  {
    var a := ReplaceAll(u, "^2", "²");
    RewritesCommute(a);
    ReplaceInverse(u, "^2", '²');
    ReplaceInverse(u, "^3", '³');
  }

  /** Rewriting a single character `c` that `x` lacks leaves `x` alone. */
  lemma {:induction false} ReplaceAfterAbsent(x: string, y: string, c: char, rep: string)
    requires c !in x
    ensures ReplaceAll(x + y, [c], rep) == x + ReplaceAll(y, [c], rep)
    decreases |x|
  {
    if x != [] {
      ReplaceAfterAbsent(x[1..], y, c, rep);
      assert x[0] in x;
      var z := x[1..] + y;
      assert x == [x[0]] + x[1..];
      assert x + y == [x[0]] + z;
      assert ([x[0]] + z)[..1] == [x[0]];
      ReplaceCons(x[0], z, [c], rep);
      assert x + ReplaceAll(y, [c], rep) == [x[0]] + (x[1..] + ReplaceAll(y, [c], rep));
    } else {
      assert x + y == y;
    }
  }

  /** A unit ending in one superscript has it rewritten as an exponent. */
  lemma ExponentsOfSuperscriptEnding(x: string, c: char)
    requires '²' !in x && '³' !in x && (c == '²' || c == '³')
    ensures Exponents(x + [c]) == x + (if c == '²' then "^2" else "^3")
  {
    ReplaceAfterAbsent(x, [c], '²', "^2");
    if c == '²' {
      assert ReplaceAll([c], "²", "^2") == "^2";
      ReplaceAfterAbsent(x, "^2", '³', "^3");
      ReplaceAbsent("^2", "³", "^3");
    } else {
      ReplaceAbsent([c], "²", "^2");
      ReplaceAfterAbsent(x, [c], '³', "^3");
      assert ReplaceAll([c], "³", "^3") == "^3";
    }
  }

  /** The superscript keys of the back table, rewritten. */
  lemma SquareKeysRewritten()
    ensures Exponents("mm²") == "mm^2" && Exponents("cm²") == "cm^2" && Exponents("m²") == "m^2"
  {
    ExponentsOfSuperscriptEnding("mm", '²');
    assert "mm²" == "mm" + ['²'];
    ExponentsOfSuperscriptEnding("cm", '²');
    assert "cm²" == "cm" + ['²'];
    ExponentsOfSuperscriptEnding("m", '²');
    assert "m²" == "m" + ['²'];
  }

  lemma CubeKeysRewritten()
    ensures Exponents("mm³") == "mm^3" && Exponents("cm³") == "cm^3" && Exponents("m³") == "m^3"
  {
    ExponentsOfSuperscriptEnding("mm", '³');
    assert "mm³" == "mm" + ['³'];
    ExponentsOfSuperscriptEnding("cm", '³');
    assert "cm³" == "cm" + ['³'];
    ExponentsOfSuperscriptEnding("m", '³');
    assert "m³" == "m" + ['³'];
  }

  /** Every back-table key other than `°` is translated as the exponent
      rewrite would translate it. */
  lemma BackTableAgreesWithRewrite(v: string)
    requires UnitTableBack(v).Some? && v != "°"
    ensures UnitTableBack(v).value == Exponents(v)
  {
    if v in ["mm²", "cm²", "m²", "mm³", "cm³", "m³"] {
      SquareKeysRewritten();
      CubeKeysRewritten();
    } else {
      BackTableIdentity(v);
    }
  }

  /** The remaining back-table keys carry no superscript and map to themselves. */
  lemma BackTableIdentity(v: string)
    requires UnitTableBack(v).Some? && v != "°"
    requires v !in ["mm²", "cm²", "m²", "mm³", "cm³", "m³"]
    ensures UnitTableBack(v).value == v == Exponents(v)
  {
    assert '²' !in v && '³' !in v;
    ReplaceAbsent(v, "²", "^2");
    ReplaceAbsent(v, "³", "^3");
  }

  /** Round trip: a FreeCAD unit without surrounding blanks or superscripts
      (and other than the literal `°`, which the back table sends to `deg`)
      survives conversion to CalcsLive notation and back. */
  lemma UnitRoundTrip(u: string)
    requires u != [] && Strip(u) == u
    requires '²' !in u && '³' !in u && u != "°"
    ensures ConvertUnitToFreeCAD(ConvertUnit(u)) == u
  {
    ConvertUnitUniform(u);
    if UnitTable(u).Some? {
      TableUnitRoundTrip(u);
    } else {
      var v := Superscripts(u);
      ExponentsUndoSuperscripts(u);
      if UnitTableBack(v).Some? {
        if v == "°" {
          ReplaceAbsent("°", "²", "^2");
          ReplaceAbsent("°", "³", "^3");
        } else {
          BackTableAgreesWithRewrite(v);
        }
      }
    }
  }

  /** The back table inverts the extractor's unit table. */
  lemma TableUnitRoundTrip(u: string)
    requires UnitTable(u).Some?
    ensures UnitTableBack(UnitTable(u).value) == Some(u)
  {
    match u
    case "mm" => case "cm" => case "m" => case "km" => case "in" => case "ft" =>
    case "deg" => case "rad" =>
    case "mm^2" => case "cm^2" => case "m^2" => case "mm^3" => case "cm^3" => case "m^3" =>
    case "kg" => case "g" => case "N" => case "Pa" => case "MPa" => case "GPa" =>
  }

  // ---------------------------------------------------------------------
  // Matching a CalcsLive symbol to an extracted parameter name

  /** The four matching rules, in priority order: 0 exact, 1 equal ignoring
      case, 2 the key contains the symbol, 3 the symbol contains the key
      (the last two ignoring case). */
  predicate Rule(rule: nat, symbol: string, key: string) {
    if rule == 0 then key == symbol
    else if rule == 1 then Lower(key) == Lower(symbol)
    else if rule == 2 then Contains(Lower(key), Lower(symbol))
    else Contains(Lower(symbol), Lower(key))
  }

  /** Index of the first key satisfying `rule`. */
  function FirstMatch(keys: seq<string>, symbol: string, rule: nat): (r: Option<nat>)
    ensures r.Some? ==>
      (r.value < |keys| && Rule(rule, symbol, keys[r.value])
       && forall j :: 0 <= j < r.value ==> !Rule(rule, symbol, keys[j]))
    ensures r.None? ==> forall j :: 0 <= j < |keys| ==> !Rule(rule, symbol, keys[j])
  {
    if keys == [] then None
    else if Rule(rule, symbol, keys[0]) then Some(0)
    else match FirstMatch(keys[1..], symbol, rule)
      case Some(i) => Some(i + 1)
      case None => None
  }

  /** `_find_best_parameter_match` over the parameter names in dict order. */
  function FindBestMatch(symbol: string, keys: seq<string>): (r: Option<string>)
    ensures r.Some? ==> r.value in keys
  {
    if symbol in keys then Some(symbol)
    else match FirstMatch(keys, symbol, 1)
      case Some(i) => Some(keys[i])
      case None => match FirstMatch(keys, symbol, 2)
        case Some(i) => Some(keys[i])
        case None => match FirstMatch(keys, symbol, 3)
          case Some(i) => Some(keys[i])
          case None => None
  }

  /** The best rule a key satisfies, 4 when none. */
  function Tier(symbol: string, key: string): (t: nat)
    ensures t <= 4
  {
    if Rule(0, symbol, key) then 0
    else if Rule(1, symbol, key) then 1
    else if Rule(2, symbol, key) then 2
    else if Rule(3, symbol, key) then 3
    else 4
  }

  /** Independent statement of the match: the answer is the first key of the
      best tier, and there is no answer exactly when no key satisfies any rule. */
  lemma FindBestMatchSpec(symbol: string, keys: seq<string>)
    ensures FindBestMatch(symbol, keys).None? <==> forall j :: 0 <= j < |keys| ==> Tier(symbol, keys[j]) == 4
    ensures FindBestMatch(symbol, keys).Some? ==>
      exists i :: 0 <= i < |keys| && keys[i] == FindBestMatch(symbol, keys).value
        && Tier(symbol, keys[i]) < 4
        && (forall j :: 0 <= j < |keys| ==> Tier(symbol, keys[i]) <= Tier(symbol, keys[j]))
        && (forall j :: 0 <= j < i ==> Tier(symbol, keys[i]) < Tier(symbol, keys[j]))
  {
    var m0 := FirstMatch(keys, symbol, 0);
    assert symbol in keys <==> m0.Some?;
    if m0.Some? {
      TierOfFirst(symbol, keys, 0);
    } else if FirstMatch(keys, symbol, 1).Some? {
      TierOfFirst(symbol, keys, 1);
    } else if FirstMatch(keys, symbol, 2).Some? {
      TierOfFirst(symbol, keys, 2);
    } else if FirstMatch(keys, symbol, 3).Some? {
      TierOfFirst(symbol, keys, 3);
    } else {
      forall j | 0 <= j < |keys| ensures Tier(symbol, keys[j]) == 4 {
        TierBelow(symbol, keys, 4, j);
      }
    }
  }

  /** When no key satisfies a rule before `t`, every key's tier is at least `t`. */
  lemma TierBelow(symbol: string, keys: seq<string>, t: nat, j: nat)
    requires t <= 4 && j < |keys|
    requires forall u :: 0 <= u < t ==> FirstMatch(keys, symbol, u).None?
    ensures Tier(symbol, keys[j]) >= t
  {
    if t > 0 { assert FirstMatch(keys, symbol, 0).None?; }
    if t > 1 { assert FirstMatch(keys, symbol, 1).None?; }
    if t > 2 { assert FirstMatch(keys, symbol, 2).None?; }
    if t > 3 { assert FirstMatch(keys, symbol, 3).None?; }
  }

  lemma TierOfFirst(symbol: string, keys: seq<string>, t: nat)
    requires t < 4 && FirstMatch(keys, symbol, t).Some?
    requires forall u :: 0 <= u < t ==> FirstMatch(keys, symbol, u).None?
    ensures var i := FirstMatch(keys, symbol, t).value;
      Tier(symbol, keys[i]) == t
      && (forall j :: 0 <= j < |keys| ==> Tier(symbol, keys[j]) >= t)
      && (forall j :: 0 <= j < i ==> Tier(symbol, keys[j]) > t)
  {
    var i := FirstMatch(keys, symbol, t).value;
    TierBelow(symbol, keys, t, i);
    forall j | 0 <= j < |keys| ensures Tier(symbol, keys[j]) >= t {
      TierBelow(symbol, keys, t, j);
    }
    forall j | 0 <= j < i ensures Tier(symbol, keys[j]) > t {
      TierBelow(symbol, keys, t, j);
    }
  }

  /** `_common_prefix`: the longest common prefix, scanned from the front. */
  method CommonPrefix(s1: string, s2: string) returns (r: string)
    ensures IsPrefix(r, s1) && IsPrefix(r, s2)
    ensures forall p :: IsPrefix(p, s1) && IsPrefix(p, s2) ==> IsPrefix(p, r)
  {
    var i := 0;
    while i < Min(|s1|, |s2|) && s1[i] == s2[i]
      invariant 0 <= i <= Min(|s1|, |s2|)
      invariant s1[..i] == s2[..i]
    {
      i := i + 1;
    }
    r := s1[..i];
    forall p | IsPrefix(p, s1) && IsPrefix(p, s2) ensures IsPrefix(p, r) {
    }
  }

  /** `_common_suffix`: the longest common suffix, taken from `s1`. */
  method CommonSuffix(s1: string, s2: string) returns (r: string)
    ensures IsSuffix(r, s1) && IsSuffix(r, s2)
    ensures forall p :: IsSuffix(p, s1) && IsSuffix(p, s2) ==> IsSuffix(p, r)
  {
    var i := 0;
    while i < Min(|s1|, |s2|) && s1[|s1| - (i + 1)] == s2[|s2| - (i + 1)]
      invariant 0 <= i <= Min(|s1|, |s2|)
      invariant s1[|s1| - i..] == s2[|s2| - i..]
    {
      assert s1[|s1| - (i + 1)..] == [s1[|s1| - (i + 1)]] + s1[|s1| - i..];
      assert s2[|s2| - (i + 1)..] == [s2[|s2| - (i + 1)]] + s2[|s2| - i..];
      i := i + 1;
    }
    r := if i > 0 then s1[|s1| - i..] else [];
    forall p | IsSuffix(p, s1) && IsSuffix(p, s2) ensures IsSuffix(p, r) {
    }
  }

  // ---------------------------------------------------------------------
  // Mapping symbols to parameters

  /** One entry of a parameter mapping. */
  datatype MappingEntry = MappingEntry(
    objectName: string,
    propertyName: string,
    freecadParamName: string,
    confidence: string)

  /** The parameter a symbol is mapped to: the best match, unless that is
      the empty name (the source tests the match for truthiness). */
  function MappedParam(symbol: string, params: seq<(string, ExtractedParam)>): Option<string> {
    match FindBestMatch(symbol, Keys(params))
    case Some(k) => if k != [] then Some(k) else None
    case None => None
  }

  /** `create_parameter_mapping`. */
  function CreateParameterMapping(params: seq<(string, ExtractedParam)>, symbols: seq<string>)
    : (r: map<string, MappingEntry>)
    ensures forall s :: s in r ==> s in symbols
    ensures forall s :: s in symbols ==> (s in r <==> MappedParam(s, params).Some?)
    ensures forall s :: s in r ==>
      r[s].confidence == "automatic" && r[s].freecadParamName != []
      && r[s].freecadParamName in Keys(params)
      && exists i :: 0 <= i < |params| && params[i].0 == r[s].freecadParamName
           && r[s].objectName == params[i].1.sourceObject
           && r[s].propertyName == params[i].1.propertyName
  {
    map s | s in symbols && MappedParam(s, params).Some? ::
      var k := MappedParam(s, params).value;
      var info := Lookup(params, k).value;
      MappingEntry(info.sourceObject, info.propertyName, k, "automatic")
  }

  // ---------------------------------------------------------------------
  // Counting the outcome of an update run

  /** One CalcsLive output: `value` and `unit`, either of which may be missing. */
  datatype OutputResult = OutputResult(value: Option<real>, unit: Option<string>)

  /** Where a symbol's result is written in the FreeCAD model. */
  datatype MappingInfo = MappingInfo(objectName: string, propertyName: string)

  datatype UpdateStats = UpdateStats(
    successful: nat,
    failed: nat,
    skipped: nat,
    updatedObjects: set<string>,
    errors: seq<string>)

  /** The fate of one mapping entry: skipped when CalcsLive returned no such
      symbol, otherwise whatever writing it into the model gave (`None` is
      success, `Some(message)` failure). */
  datatype Fate = Skipped | Succeeded | Failed(message: string)

  function FateOf(entry: (string, MappingInfo), outputs: map<string, OutputResult>,
                  write: (string, OutputResult, MappingInfo) -> Option<string>): Fate
  {
    if entry.0 !in outputs then Skipped
    else match write(entry.0, outputs[entry.0], entry.1)
      case None => Succeeded
      case Some(e) => Failed(e)
  }

  function CountFate(m: seq<(string, MappingInfo)>, outputs: map<string, OutputResult>,
                     write: (string, OutputResult, MappingInfo) -> Option<string>, kind: nat): nat
  {
    if m == [] then 0
    else
      var f := FateOf(m[|m| - 1], outputs, write);
      var hit := if kind == 0 then f.Skipped? else if kind == 1 then f.Succeeded? else f.Failed?;
      CountFate(m[..|m| - 1], outputs, write, kind) + (if hit then 1 else 0)
  }

  function FailureMessages(m: seq<(string, MappingInfo)>, outputs: map<string, OutputResult>,
                           write: (string, OutputResult, MappingInfo) -> Option<string>): seq<string>
  {
    if m == [] then []
    else
      var f := FateOf(m[|m| - 1], outputs, write);
      FailureMessages(m[..|m| - 1], outputs, write) + (if f.Failed? then [f.message] else [])
  }

  function UpdatedObjects(m: seq<(string, MappingInfo)>, outputs: map<string, OutputResult>,
                          write: (string, OutputResult, MappingInfo) -> Option<string>): set<string>
  {
    if m == [] then {}
    else
      var f := FateOf(m[|m| - 1], outputs, write);
      UpdatedObjects(m[..|m| - 1], outputs, write) + (if f.Succeeded? then {m[|m| - 1].1.objectName} else {})
  }

  /** `update_model_from_calcslive`: writing each result is the oracle
      `write`; `recomputeError` is what recomputing the document raised, if
      anything. */
  method UpdateModelFromCalcsLive(
    docPresent: bool,
    outputs: map<string, OutputResult>,
    mapping: seq<(string, MappingInfo)>,
    write: (string, OutputResult, MappingInfo) -> Option<string>,
    recomputeError: Option<string>)
    returns (r: Result<UpdateStats, string>)
    ensures !docPresent <==> r.Err?
    ensures r.Ok? ==>
      var st := r.value;
      st.successful + st.failed + st.skipped == |mapping|
      && st.skipped == |MissingSymbols(mapping, outputs)|
      && st.successful == CountFate(mapping, outputs, write, 1)
      && st.failed == CountFate(mapping, outputs, write, 2)
      && st.updatedObjects == UpdatedObjects(mapping, outputs, write)
      && st.errors == FailureMessages(mapping, outputs, write)
           + (if st.updatedObjects != {} && recomputeError.Some?
              then ["Recompute failed: " + recomputeError.value] else [])
  {
    if !docPresent {
      return Err("No active document found");
    }
    var successful, failed, skipped := 0, 0, 0;
    var updated: set<string> := {};
    var errors: seq<string> := [];
    var i := 0;
    while i < |mapping|
      invariant 0 <= i <= |mapping|
      invariant successful + failed + skipped == i
      invariant skipped == CountFate(mapping[..i], outputs, write, 0)
      invariant successful == CountFate(mapping[..i], outputs, write, 1)
      invariant failed == CountFate(mapping[..i], outputs, write, 2)
      invariant updated == UpdatedObjects(mapping[..i], outputs, write)
      invariant errors == FailureMessages(mapping[..i], outputs, write)
    {
      var symbol := mapping[i].0;
      var info := mapping[i].1;
      FateStep(mapping, outputs, write, i);
      if symbol in outputs {
        match write(symbol, outputs[symbol], info)
        case None =>
          successful := successful + 1;
          updated := updated + {info.objectName};
        case Some(e) =>
          failed := failed + 1;
          errors := errors + [e];
      } else {
        skipped := skipped + 1;
      }
      i := i + 1;
    }
    assert mapping[..|mapping|] == mapping;
    SkippedAreMissing(mapping, outputs, write);
    if updated != {} && recomputeError.Some? {
      errors := errors + ["Recompute failed: " + recomputeError.value];
    }
    return Ok(UpdateStats(successful, failed, skipped, updated, errors));
  }

  /** How each tally grows by one more mapping entry. */
  lemma FateStep(m: seq<(string, MappingInfo)>, outputs: map<string, OutputResult>,
                 write: (string, OutputResult, MappingInfo) -> Option<string>, i: nat)
    requires i < |m|
    ensures var f := FateOf(m[i], outputs, write);
      CountFate(m[..i + 1], outputs, write, 0) == CountFate(m[..i], outputs, write, 0) + (if f.Skipped? then 1 else 0)
      && CountFate(m[..i + 1], outputs, write, 1) == CountFate(m[..i], outputs, write, 1) + (if f.Succeeded? then 1 else 0)
      && CountFate(m[..i + 1], outputs, write, 2) == CountFate(m[..i], outputs, write, 2) + (if f.Failed? then 1 else 0)
      && UpdatedObjects(m[..i + 1], outputs, write)
         == UpdatedObjects(m[..i], outputs, write) + (if f.Succeeded? then {m[i].1.objectName} else {})
      && FailureMessages(m[..i + 1], outputs, write)
         == FailureMessages(m[..i], outputs, write) + (if f.Failed? then [f.message] else [])
  {
    assert m[..i + 1][..i] == m[..i];
  }

  /** The mapped symbols CalcsLive returned no output for, in mapping order. */
  function MissingSymbols(m: seq<(string, MappingInfo)>, outputs: map<string, OutputResult>): (r: seq<string>)
    ensures forall s :: s in r <==> s in Keys(m) && s !in outputs
  {
    if m == [] then []
    else
      var p := m[..|m| - 1];
      assert Keys(m) == Keys(p) + [m[|m| - 1].0];
      MissingSymbols(p, outputs) + (if m[|m| - 1].0 !in outputs then [m[|m| - 1].0] else [])
  }

  /** The skipped entries are exactly those whose symbol has no output. */
  lemma {:induction false} SkippedAreMissing(m: seq<(string, MappingInfo)>, outputs: map<string, OutputResult>,
                                             write: (string, OutputResult, MappingInfo) -> Option<string>)
    ensures CountFate(m, outputs, write, 0) == |MissingSymbols(m, outputs)|
    decreases |m|
  {
    if m != [] {
      SkippedAreMissing(m[..|m| - 1], outputs, write);
    }
  }

  // ---------------------------------------------------------------------
  // Ranking suggestions

  /** `suggest_parameter_mappings` for one symbol: the names with a positive
      score, stably sorted by descending score, at most three of them. The
      score itself is left abstract. */
  function Suggest(symbol: string, keys: seq<string>, score: (string, string) -> real): seq<string> {
    Take(SortDesc(Positive(symbol, keys, score), ScoreOf(symbol, score)), 3)
  }

  /** The score of each name against `symbol`, as a sort key. */
  function ScoreOf(symbol: string, score: (string, string) -> real): string -> real {
    (k: string) => score(symbol, k)
  }

  /** The names with a positive score, in their original order. */
  function Positive(symbol: string, keys: seq<string>, score: (string, string) -> real): (r: seq<string>)
    ensures forall k :: k in r <==> k in keys && score(symbol, k) > 0.0
  {
    Filter(keys, (k: string) => score(symbol, k) > 0.0)
  }

  /** What a suggestion list promises: at most three known names, each with a
      positive score, best first, and no better-scoring name left out. */
  lemma SuggestSpec(symbol: string, keys: seq<string>, score: (string, string) -> real)
    ensures var r := Suggest(symbol, keys, score);
      |r| == Min(3, |Positive(symbol, keys, score)|)
      && (forall k :: k in r ==> k in keys && score(symbol, k) > 0.0)
      && (forall i, j :: 0 <= i < j < |r| ==> score(symbol, r[i]) >= score(symbol, r[j]))
      && (forall k :: k in keys && score(symbol, k) > 0.0 && k !in r ==>
            forall i :: 0 <= i < |r| ==> score(symbol, r[i]) >= score(symbol, k))
  {
    var key := ScoreOf(symbol, score);
    var positive := Positive(symbol, keys, score);
    var sorted := SortDesc(positive, key);
    SortDescProps(positive, key);
    var r := Take(sorted, 3);
    assert forall k :: k in sorted <==> k in positive by {
      forall k ensures k in sorted <==> k in positive {
        assert k in multiset(sorted) <==> k in multiset(positive);
      }
    }
    forall i, j | 0 <= i < j < |r| ensures score(symbol, r[i]) >= score(symbol, r[j]) {
      assert key(sorted[i]) >= key(sorted[j]);
    }
    forall k | k in keys && score(symbol, k) > 0.0 && k !in r
      ensures forall i :: 0 <= i < |r| ==> score(symbol, r[i]) >= score(symbol, k)
    {
      TakeDescendingBound(sorted, 3, key, k);
    }
  }

  /** `suggest_parameter_mappings`: one suggestion list per output symbol. */
  function SuggestParameterMappings(keys: seq<string>, outputs: seq<string>,
                                    score: (string, string) -> real): (r: map<string, seq<string>>)
    ensures r.Keys == set s | s in outputs
    ensures forall s :: s in r ==> r[s] == Suggest(s, keys, score) && |r[s]| <= 3
  {
    map s | s in outputs :: Suggest(s, keys, score)
  }
}
