/** The workbench commands' pure helpers: the symbol a property name gets,
    the unit symbol read off a unit's text, and the request body of the
    calculate call. The two command classes carry textually identical copies
    of the first two; one definition here stands for both. */
module CalcsLiveTools {

  import opened Wrappers
  import opened Text
  import opened Seqs
  import opened Json

  // ---------------------------------------------------------------------
  // Symbols

  /** The standard property names and their symbols, in dict order. */
  const SymbolTable: seq<(string, string)> := [
    ("Radius", "r"), ("Height", "h"), ("Length", "L"), ("Width", "w"), ("Diameter", "d"),
    ("Thickness", "t"), ("Angle", "θ"), ("Mass", "m"), ("Volume", "V"), ("Area", "A")
  ]

  /** Whether table key `i` equals the name ignoring case. */
  predicate CaseMatch(table: seq<(string, string)>, i: int, name: string) {
    0 <= i < |table| && Lower(name) == Lower(table[i].0)
  }

  /** The position of the first key equal to the name ignoring case. */
  function FirstCaseMatch(table: seq<(string, string)>, name: string): (r: Option<nat>)
    ensures r.None? <==> forall i :: 0 <= i < |table| ==> !CaseMatch(table, i, name)
    ensures r.Some? ==> CaseMatch(table, r.value, name) && forall j :: 0 <= j < r.value ==> !CaseMatch(table, j, name)
  {
    if table == [] then None
    else if Lower(name) == Lower(table[0].0) then
      assert CaseMatch(table, 0, name);
      Some(0)
    else
      assert !CaseMatch(table, 0, name);
      assert forall i :: 1 <= i < |table| ==> (CaseMatch(table, i, name) <==> CaseMatch(table[1..], i - 1, name));
      match FirstCaseMatch(table[1..], name)
      case None => None
      case Some(i) =>
        assert CaseMatch(table, i + 1, name);
        Some(i + 1)
  }

  /** The name with every `Constraint` and then every `Datum` removed, and
      surrounding blanks stripped. */
  function CleanName(name: string): string {
    Strip(ReplaceAll(ReplaceAll(name, "Constraint", ""), "Datum", ""))
  }

  /** The symbol made up for a name outside the table: the first letter of
      the cleaned name, else of the name itself, in lower case. */
  function MadeUpSymbol(propName: string): (r: Result<string, string>)
    ensures r.Err? <==> propName == []
    ensures r.Ok? ==> |r.value| == 1 && !('A' <= r.value[0] <= 'Z')
    ensures CleanName(propName) != [] ==> r == Ok([LowerChar(CleanName(propName)[0])])
  {
    var clean := CleanName(propName);
    if clean != [] then Ok([LowerChar(clean[0])])
    else if propName != [] then Ok([LowerChar(propName[0])])
    else Err("string index out of range")
  }

  /** `generate_symbol` over a symbol table (the object name it also
      receives is unused). */
  function SymbolFrom(table: seq<(string, string)>, propName: string): (r: Result<string, string>)
    requires forall i :: 0 <= i < |table| ==> table[i].0 != []
    ensures r.Err? <==> propName == []
    ensures Lookup(table, propName).Some? ==> r == Ok(Lookup(table, propName).value)
    ensures Lookup(table, propName).None? && FirstCaseMatch(table, propName).Some? ==>
      r == Ok(table[FirstCaseMatch(table, propName).value].1)
    ensures FirstCaseMatch(table, propName).None? ==> r == MadeUpSymbol(propName)
  {
    match Lookup(table, propName)
    case Some(symbol) =>
      var k :| 0 <= k < |table| && table[k] == (propName, symbol);
      assert CaseMatch(table, k, propName);
      Ok(symbol)
    case None =>
      match FirstCaseMatch(table, propName)
      case Some(i) =>
        assert |propName| == |table[i].0|;
        Ok(table[i].1)
      case None => MadeUpSymbol(propName)
  }

  /** `generate_symbol` with the standard table. */
  function GenerateSymbol(propName: string): Result<string, string> {
    SymbolNamesNonEmpty();
    SymbolFrom(SymbolTable, propName)
  }

  lemma SymbolNamesNonEmpty()
    ensures forall i :: 0 <= i < |SymbolTable| ==> SymbolTable[i].0 != []
  {}

  /** The first two letters of each table name, in lower case. */
  const LowerStems: seq<string> := ["ra", "he", "le", "wi", "di", "th", "an", "ma", "vo", "ar"]

  lemma LowerStemsOfTable(i: nat)
    requires i < |SymbolTable|
    ensures |SymbolTable[i].0| >= 2
    ensures [LowerChar(SymbolTable[i].0[0]), LowerChar(SymbolTable[i].0[1])] == LowerStems[i]
  {}

  lemma LowerStemsDistinct()
    ensures NoDup(LowerStems)
  {}

  /** No two table names are equal ignoring case. */
  lemma NamesDistinctIgnoringCase(i: nat, k: nat)
    requires i < |SymbolTable| && k < |SymbolTable|
    requires Lower(SymbolTable[i].0) == Lower(SymbolTable[k].0)
    ensures i == k
  {
    var a := SymbolTable[i].0;
    var b := SymbolTable[k].0;
    LowerStemsOfTable(i);
    LowerStemsOfTable(k);
    assert Lower(a)[0] == LowerChar(a[0]) && Lower(a)[1] == LowerChar(a[1]);
    assert Lower(b)[0] == LowerChar(b[0]) && Lower(b)[1] == LowerChar(b[1]);
    assert LowerStems[i] == LowerStems[k];
    LowerStemsDistinct();
  }

  /** Every table name gets its symbol, whatever its case. */
  lemma GenerateSymbolIgnoresCase(name: string, i: nat)
    requires i < |SymbolTable| && Lower(name) == Lower(SymbolTable[i].0)
    ensures GenerateSymbol(name) == Ok(SymbolTable[i].1)
  {
    SymbolNamesNonEmpty();
    match Lookup(SymbolTable, name)
    case None =>
      assert CaseMatch(SymbolTable, i, name);
      var f := FirstCaseMatch(SymbolTable, name).value;
      NamesDistinctIgnoringCase(f, i);
    case Some(symbol) =>
      var k :| 0 <= k < |SymbolTable| && SymbolTable[k] == (name, symbol);
      NamesDistinctIgnoringCase(k, i);
  }

  /** What is left of a name led by `Constraint` once the marker words are
      removed. */
  lemma CleanNameAfterConstraint(rest: string)
    requires IsToken(rest) && 'C' !in rest && 'D' !in rest
    ensures CleanName("Constraint" + rest) == rest
  {
    var marker := "Constraint";
    var name := marker + rest;
    assert name[..|marker|] == marker;
    ReplaceMatch(name, marker, "");
    assert name[|marker|..] == rest;
    assert marker[0] == 'C';
    ReplaceAbsent(rest, marker, "");
    assert ReplaceAll(name, marker, "") == rest;
    assert "Datum"[0] == 'D';
    ReplaceAbsent(rest, "Datum", "");
    StripTrimmed(rest);
  }

  /** An unknown name led by `Constraint` is named after what follows it. */
  lemma GenerateSymbolDropsConstraint(rest: string)
    requires IsToken(rest) && 'C' !in rest && 'D' !in rest
    requires FirstCaseMatch(SymbolTable, "Constraint" + rest).None?
    ensures GenerateSymbol("Constraint" + rest) == Ok([LowerChar(rest[0])])
  {
    CleanNameAfterConstraint(rest);
  }

  // ---------------------------------------------------------------------
  // Unit symbols

  /** What the unit object offers besides its text: `getUserPreferred`
      missing, raising, or giving a unit string. */
  datatype Preferred = NoPreferred | PreferredRaises | PreferredUnit(unit: string)

  datatype UnitObj = UnitObj(text: string, preferred: Preferred)

  /** The text patterns tried in order: unit marker, dimension, symbol. */
  const UnitRules: seq<(string, string, string)> := [
    ("Unit: mm", "Length", "mm"),
    ("Unit: deg", "Angle", "deg"),
    ("Unit: m", "Length", "m"),
    ("Unit: cm", "Length", "cm"),
    ("Unit: in", "Length", "in"),
    ("Unit: ft", "Length", "ft")
  ]

  predicate RuleMatches(rule: (string, string, string), t: string) {
    Contains(t, rule.0) && Contains(t, rule.1)
  }

  /** The symbol of the first rule whose marker and dimension both occur. */
  function FirstRule(rules: seq<(string, string, string)>, t: string): (r: Option<string>)
    ensures r.None? <==> forall i :: 0 <= i < |rules| ==> !RuleMatches(rules[i], t)
    ensures r.Some? ==> exists i :: 0 <= i < |rules| && RuleMatches(rules[i], t) && r.value == rules[i].2
                                 && forall j :: 0 <= j < i ==> !RuleMatches(rules[j], t)
  {
    if rules == [] then None
    else if RuleMatches(rules[0], t) then Some(rules[0].2)
    else
      var r := FirstRule(rules[1..], t);
      assert forall i :: 1 <= i < |rules| ==> rules[i] == rules[1..][i - 1];
      assert r.Some? ==> exists i :: 0 <= i < |rules| && RuleMatches(rules[i], t) && r.value == rules[i].2
                                   && forall j :: 0 <= j < i ==> !RuleMatches(rules[j], t) by {
        if r.Some? {
          var i :| 0 <= i < |rules[1..]| && RuleMatches(rules[1..][i], t) && r.value == rules[1..][i].2
                   && forall j :: 0 <= j < i ==> !RuleMatches(rules[1..][j], t);
          assert forall j :: 0 <= j < i + 1 ==> !RuleMatches(rules[j], t) by {
            forall j | 0 <= j < i + 1 ensures !RuleMatches(rules[j], t) {
              if j > 0 { assert rules[j] == rules[1..][j - 1]; }
            }
          }
        }
      }
      r
  }

  /** `extract_unit_symbol`. */
  function ExtractUnitSymbol(u: UnitObj): (r: string)
    ensures FirstRule(UnitRules, u.text).Some? ==> r == FirstRule(UnitRules, u.text).value
    ensures FirstRule(UnitRules, u.text).None? ==>
      match u.preferred
      case PreferredUnit(s) => r == s
      case PreferredRaises => r == "unknown"
      case NoPreferred => r == (if |Words(u.text)| > 1 then Words(u.text)[1] else "unknown")
  {
    match FirstRule(UnitRules, u.text)
    case Some(symbol) => symbol
    case None =>
      match u.preferred
      case PreferredUnit(s) => s
      case PreferredRaises => "unknown"
      case NoPreferred =>
        var ws := Words(u.text);
        if |ws| > 1 then ws[1] else "unknown"
  }

  /** A millimetre length reads as `mm`, although its text also carries the
      metre marker: the `mm` rule is tried before the `m` rule. */
  lemma MillimetreBeforeMetre(u: UnitObj)
    requires Contains(u.text, "Unit: mm") && Contains(u.text, "Length")
    ensures ExtractUnitSymbol(u) == "mm"
    ensures RuleMatches(UnitRules[2], u.text)
  {
    assert RuleMatches(UnitRules[0], u.text);
    ContainsPrefixOf(u.text, "Unit: m", "Unit: mm");
  }

  // ---------------------------------------------------------------------
  // Calculate request

  /** The fields of an extracted parameter the request uses. */
  datatype ToolParam = ToolParam(symbol: string, value: Json, calcsliveUnit: string)

  datatype ApiInput = ApiInput(value: Json, unit: string)

  datatype ApiData = ApiData(articleId: string, apiKey: string, inputs: map<string, ApiInput>,
                             outputs: map<string, string>)

  const DemoArticleId: string := "demo-cylinder-volume"
  const PlaceholderApiKey: string := "your-api-key-here"

  function InputEntries(parameters: seq<ToolParam>): (r: seq<(string, ApiInput)>)
    ensures |r| == |parameters|
    ensures forall i :: 0 <= i < |r| ==> r[i] == (parameters[i].symbol, ApiInput(parameters[i].value, parameters[i].calcsliveUnit))
  {
    if parameters == [] then []
    else [(parameters[0].symbol, ApiInput(parameters[0].value, parameters[0].calcsliveUnit))] + InputEntries(parameters[1..])
  }

  /** `prepare_api_data`. */
  function PrepareApiData(parameters: seq<ToolParam>): (r: ApiData)
    ensures forall k :: k in r.inputs <==> exists i :: 0 <= i < |parameters| && parameters[i].symbol == k
    ensures r.outputs == map["V" := "mm³"]
    ensures r.articleId == DemoArticleId
  {
    var entries := InputEntries(parameters);
    var inputs := ToMap(entries);
    assert forall k :: k in Keys(entries) <==> exists i :: 0 <= i < |parameters| && parameters[i].symbol == k by {
      forall k ensures k in Keys(entries) <==> exists i :: 0 <= i < |parameters| && parameters[i].symbol == k {
        if k in Keys(entries) {
          var i :| 0 <= i < |Keys(entries)| && Keys(entries)[i] == k;
          assert parameters[i].symbol == k;
        }
        if exists i :: 0 <= i < |parameters| && parameters[i].symbol == k {
          var i :| 0 <= i < |parameters| && parameters[i].symbol == k;
          assert Keys(entries)[i] == k;
        }
      }
    }
    ApiData(DemoArticleId, PlaceholderApiKey, inputs, map["V" := "mm³"])
  }

  /** Whether parameter `i` is the last one with its symbol. */
  predicate LastWithSymbol(parameters: seq<ToolParam>, i: int) {
    0 <= i < |parameters| && forall j :: i < j < |parameters| ==> parameters[j].symbol != parameters[i].symbol
  }

  /** For a repeated symbol the last parameter supplies value and unit. */
  lemma PrepareApiDataLastWins(parameters: seq<ToolParam>, i: int)
    requires LastWithSymbol(parameters, i)
    ensures PrepareApiData(parameters).inputs[parameters[i].symbol] ==
      ApiInput(parameters[i].value, parameters[i].calcsliveUnit)
  {
    var entries := InputEntries(parameters);
    assert IsLastKey(entries, i, entries[i].0);
    ToMapLastWins(entries, i);
  }
}
